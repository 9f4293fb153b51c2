/** Byte-wise string order and the two text operations the check string is decoded with. */
module Text {

  /** Go's `<` on strings: lexicographic order. */
  predicate Less(a: string, b: string)
  {
    b != [] && (a == [] || a[0] < b[0] || (a[0] == b[0] && Less(a[1..], b[1..])))
  }

  lemma {:induction false} LessTransitive(a: string, b: string, c: string)
    requires Less(a, b) && Less(b, c)
    ensures Less(a, c)
  {
    if a != [] && a[0] == b[0] && b[0] == c[0] {
      LessTransitive(a[1..], b[1..], c[1..]);
    }
  }

  lemma {:induction false} LessIrreflexive(a: string)
    ensures !Less(a, a)
  {
    if a != [] {
      LessIrreflexive(a[1..]);
    }
  }

  lemma {:induction false} LessTotal(a: string, b: string)
    ensures Less(a, b) || a == b || Less(b, a)
  {
    if a != [] && b != [] && a[0] == b[0] {
      LessTotal(a[1..], b[1..]);
      assert a == [a[0]] + a[1..] && b == [b[0]] + b[1..];
    }
  }

  /** Cuts `s` at every `sep`; there is always one more piece than separators. */
  function Split(s: string, sep: char): (pieces: seq<string>)
    ensures |pieces| >= 1
  {
    if s == [] then [[]]
    else
      var rest := Split(s[1..], sep);
      if s[0] == sep then [[]] + rest else [[s[0]] + rest[0]] + rest[1..]
  }

  /** A piece without separators comes back whole, followed by the cut of what is behind it. */
  lemma {:induction false} SplitAtSeparator(a: string, sep: char, rest: string)
    requires sep !in a
    ensures Split(a + [sep] + rest, sep) == [a] + Split(rest, sep)
  {
    var s := a + [sep] + rest;
    if a == [] {
      assert s[1..] == rest;
    } else {
      assert s[1..] == a[1..] + [sep] + rest;
      SplitAtSeparator(a[1..], sep, rest);
      assert a == [a[0]] + a[1..];
    }
  }

  lemma {:induction false} SplitWithoutSeparator(a: string, sep: char)
    requires sep !in a
    ensures Split(a, sep) == [a]
  {
    if a != [] {
      SplitWithoutSeparator(a[1..], sep);
      assert a == [a[0]] + a[1..];
    }
  }

  /** The text before and after the first `sep`; a text without one is all "before". */
  function Cut(s: string, sep: char): (r: (string, string))
  {
    if s == [] then ([], [])
    else if s[0] == sep then ([], s[1..])
    else var r := Cut(s[1..], sep); ([s[0]] + r.0, r.1)
  }

  lemma {:induction false} CutAtFirst(a: string, sep: char, rest: string)
    requires sep !in a
    ensures Cut(a + [sep] + rest, sep) == (a, rest)
  {
    var s := a + [sep] + rest;
    if a == [] {
      assert s[1..] == rest;
    } else {
      assert s[1..] == a[1..] + [sep] + rest;
      CutAtFirst(a[1..], sep, rest);
      assert a == [a[0]] + a[1..];
    }
  }
}

/**
 The canonical text that Telegram signs: every field except `hash` and `signature`,
 ordered by name, as `name=value` lines.

 The model starts from the decoded parameter list. `Collect` is what url.ParseQuery
 leaves behind, a map from a name to all its values in order of appearance.
 */
module CheckString {
  import opened Text

  type Values = map<string, seq<string>>
  type Fields = map<string, string>

  // ---- Parameters and the map they are collected into ----

  function Collect(params: seq<(string, string)>): (v: Values)
    ensures forall k <- v :: v[k] != []
  {
    if params == [] then map[]
    else
      var n := |params| - 1;
      var before := Collect(params[..n]);
      var (k, x) := params[n];
      before[k := (if k in before then before[k] else []) + [x]]
  }

  /** url.Values.Get: the first value, or the empty string. */
  function Get(v: Values, k: string): string
  {
    if k in v && v[k] != [] then v[k][0] else ""
  }

  predicate Signed(k: string) {
    k != "hash" && k != "signature"
  }

  function SignedFields(v: Values): (m: Fields)
  {
    map k | k in v && Signed(k) :: Get(v, k)
  }

  /** Reference reading of a parameter list: the earliest value of each name. */
  function FirstValues(params: seq<(string, string)>): Fields
  {
    if params == [] then map[]
    else FirstValues(params[1..])[params[0].0 := params[0].1]
  }

  lemma {:induction false} FirstValuesSnoc(params: seq<(string, string)>, p: (string, string))
    ensures FirstValues(params + [p])
         == (if p.0 in FirstValues(params) then FirstValues(params) else FirstValues(params)[p.0 := p.1])
  {
    if params == [] {
      assert params + [p] == [p];
      assert [p][1..] == [];
    } else {
      assert (params + [p])[1..] == params[1..] + [p];
      FirstValuesSnoc(params[1..], p);
    }
  }

  /** Collecting and then taking first values is the reference reading. */
  lemma {:induction false} CollectKeepsFirstValue(params: seq<(string, string)>)
    ensures Collect(params).Keys == FirstValues(params).Keys
    ensures forall k <- FirstValues(params) :: Get(Collect(params), k) == FirstValues(params)[k]
  {
    if params != [] {
      var n := |params| - 1;
      CollectKeepsFirstValue(params[..n]);
      assert params[..n] + [params[n]] == params;
      FirstValuesSnoc(params[..n], params[n]);
    }
  }

  // ---- Sorted listings of a key set ----

  predicate StrictlySorted(keys: seq<string>)
  {
    forall i, j :: 0 <= i < j < |keys| ==> Less(keys[i], keys[j])
  }

  ghost predicate Lists(keys: seq<string>, names: set<string>)
  {
    StrictlySorted(keys) && (forall k :: k in keys <==> k in names)
  }

  /** A set has one sorted listing, so the order in which a map is walked cannot matter. */
  lemma {:induction false} ListingIsUnique(a: seq<string>, b: seq<string>, names: set<string>)
    requires Lists(a, names) && Lists(b, names)
    ensures a == b
    decreases |a|
  {
    if a == [] || b == [] {
      HeadBelongs(a);
      HeadBelongs(b);
    } else {
      assert a[0] in b && b[0] in a;
      HeadIsLeast(a, b[0]);
      HeadIsLeast(b, a[0]);
      if a[0] != b[0] {
        LessTransitive(a[0], b[0], a[0]);
        LessIrreflexive(a[0]);
      }
      TailLists(a, names);
      TailLists(b, names);
      ListingIsUnique(a[1..], b[1..], names - {a[0]});
    }
  }

  lemma HeadBelongs(keys: seq<string>)
    ensures keys == [] || keys[0] in keys
  {
  }

  lemma HeadIsLeast(keys: seq<string>, k: string)
    requires StrictlySorted(keys) && k in keys
    ensures k == keys[0] || Less(keys[0], k)
  {
    var i :| 0 <= i < |keys| && keys[i] == k;
  }

  lemma TailLists(keys: seq<string>, names: set<string>)
    requires Lists(keys, names) && keys != []
    ensures Lists(keys[1..], names - {keys[0]})
  {
    LessIrreflexive(keys[0]);
    assert keys == [keys[0]] + keys[1..];
    assert keys[0] !in keys[1..];
  }

  /** sort.Strings, as insertion of one more key into a sorted list. */
  function Insert(keys: seq<string>, k: string): (r: seq<string>)
  {
    if keys == [] then [k]
    else if Less(k, keys[0]) then [k] + keys
    else [keys[0]] + Insert(keys[1..], k)
  }

  function Sort(keys: seq<string>): seq<string>
  {
    if keys == [] then [] else Insert(Sort(keys[1..]), keys[0])
  }

  lemma {:induction false} InsertLists(keys: seq<string>, k: string, names: set<string>)
    requires Lists(keys, names) && k !in names
    ensures Lists(Insert(keys, k), names + {k})
    decreases |keys|
  {
    if keys == [] {
      assert [k][0] == k;
    } else if Less(k, keys[0]) {
      forall j | 0 <= j < |keys|
        ensures Less(k, keys[j])
      {
        if j > 0 { LessTransitive(k, keys[0], keys[j]); }
      }
    } else {
      TailLists(keys, names);
      assert keys[0] in names;
      LessTotal(k, keys[0]);
      InsertLists(keys[1..], k, names - {keys[0]});
      var r := Insert(keys[1..], k);
      forall j | 0 <= j < |r|
        ensures Less(keys[0], r[j])
      {
        assert r[j] in names - {keys[0]} + {k};
        if r[j] != k {
          assert r[j] in keys;
          HeadIsLeast(keys, r[j]);
        }
      }
      assert Insert(keys, k) == [keys[0]] + r;
    }
  }

  lemma {:induction false} SortLists(keys: seq<string>, names: set<string>)
    requires forall i, j :: 0 <= i < j < |keys| ==> keys[i] != keys[j]
    requires forall k :: k in keys <==> k in names
    ensures Lists(Sort(keys), names)
    decreases |keys|
  {
    if keys != [] {
      assert keys == [keys[0]] + keys[1..];
      SortLists(keys[1..], names - {keys[0]});
      InsertLists(Sort(keys[1..]), keys[0], names - {keys[0]});
      assert names - {keys[0]} + {keys[0]} == names;
    }
  }

  lemma {:induction false} ListingExists(names: set<string>)
    ensures exists keys :: Lists(keys, names)
  {
    if names == {} {
      assert Lists([], names);
    } else {
      var k :| k in names;
      ListingExists(names - {k});
      var keys :| Lists(keys, names - {k});
      InsertLists(keys, k, names - {k});
      assert names - {k} + {k} == names;
    }
  }

  ghost function SortedKeys(names: set<string>): (keys: seq<string>)
    ensures Lists(keys, names)
  {
    ListingExists(names);
    var keys :| Lists(keys, names);
    keys
  }

  // ---- The text ----

  function Line(k: string, x: string): string {
    k + ['='] + x
  }

  /** One line per key, each preceded by a newline. */
  function Block(keys: seq<string>, m: Fields): string
    requires forall k <- keys :: k in m
  {
    if keys == [] then [] else ['\n'] + Line(keys[0], m[keys[0]]) + Block(keys[1..], m)
  }

  /** The signed text of a field map. */
  ghost function Canonical(m: Fields): string
  {
    if m == map[] then [] else Block(SortedKeys(m.Keys), m)[1..]
  }

  /** What a third party checks: the bot prefix and every field on its own line. */
  ghost function ThirdParty(prefix: string, m: Fields): string
  {
    prefix + Block(SortedKeys(m.Keys), m)
  }

  /** The third-party text is the prefix, a newline and the canonical text, unless nothing is signed. */
  lemma ThirdPartyExtendsCanonical(prefix: string, m: Fields)
    ensures m != map[] ==> ThirdParty(prefix, m) == prefix + ['\n'] + Canonical(m)
    ensures m == map[] ==> ThirdParty(prefix, m) == prefix
  {
    var keys := SortedKeys(m.Keys);
    if m != map[] {
      assert exists k :: k in m.Keys by {
        assert m.Keys != {};
      }
      assert keys != [];
      var b := Block(keys, m);
      assert b == ['\n'] + b[1..];
    } else {
      assert forall k :: k !in keys;
    }
  }

  // ---- The loops of Verify and VerifyThirdParty ----

  /** Collects the signed names in whatever order the map yields them, then sorts. */
  method SignedKeys(v: Values) returns (keys: seq<string>)
    ensures keys == SortedKeys(SignedFields(v).Keys)
  {
    ghost var names := SignedFields(v).Keys;
    var todo := v.Keys;
    keys := [];
    while todo != {}
      invariant todo <= v.Keys
      invariant forall i, j :: 0 <= i < j < |keys| ==> keys[i] != keys[j]
      invariant forall k :: k in keys <==> k in names && k !in todo
      decreases |todo|
    {
      var k :| k in todo;
      todo := todo - {k};
      if k == "hash" || k == "signature" {
        continue;
      }
      keys := keys + [k];
    }
    SortLists(keys, names);
    keys := Sort(keys);
    ListingIsUnique(keys, SortedKeys(names), names);
  }

  lemma BlockUnfolds(keys: seq<string>, i: nat, m: Fields)
    requires i < |keys| && forall k <- keys :: k in m
    ensures keys[i] in m
    ensures Block(keys[i..], m) == ['\n'] + Line(keys[i], m[keys[i]]) + Block(keys[i + 1..], m)
  {
    assert keys[i..][1..] == keys[i + 1..];
  }

  /** The text Verify authenticates. */
  method BuildCheckString(v: Values) returns (b: string)
    ensures b == Canonical(SignedFields(v))
  {
    ghost var m := SignedFields(v);
    var keys := SignedKeys(v);
    ghost var whole := Block(keys, m);
    b := [];
    var i := 0;
    while i < |keys|
      invariant 0 <= i <= |keys|
      invariant i == 0 ==> b == []
      invariant whole == (if i == 0 then Block(keys[i..], m) else ['\n'] + b + Block(keys[i..], m))
    {
      var k := keys[i];
      BlockUnfolds(keys, i, m);
      ghost var rest := Block(keys[i + 1..], m);
      ghost var was := b;
      if i > 0 {
        b := b + ['\n'];
      }
      b := b + k;
      b := b + ['='];
      b := b + Get(v, k);
      assert whole == ['\n'] + b + rest by {
        AppendLine(i == 0, was, k, Get(v, k), rest);
      }
      i := i + 1;
    }
    if keys == [] {
      assert forall k :: k !in m.Keys;
    } else {
      assert keys[0] in keys;
      assert whole == ['\n'] + b;
    }
  }

  lemma AppendLine(first: bool, was: string, k: string, x: string, rest: string)
    requires first ==> was == []
    ensures (if first then [] else ['\n'] + was) + (['\n'] + Line(k, x) + rest)
         == ['\n'] + ((if first then was else was + ['\n']) + k + ['='] + x) + rest
  {
    if first {
      assert was + k == k;
    }
  }

  /** The text VerifyThirdParty authenticates, after the bot prefix has been written. */
  method BuildThirdPartyString(v: Values, prefix: string) returns (b: string)
    ensures b == ThirdParty(prefix, SignedFields(v))
  {
    ghost var m := SignedFields(v);
    var keys := SignedKeys(v);
    ghost var whole := Block(keys, m);
    b := prefix;
    var i := 0;
    while i < |keys|
      invariant 0 <= i <= |keys|
      invariant b + Block(keys[i..], m) == prefix + whole
    {
      var k := keys[i];
      BlockUnfolds(keys, i, m);
      ghost var was := b;
      b := b + ['\n'];
      b := b + k;
      b := b + ['='];
      b := b + Get(v, k);
      assert b + Block(keys[i + 1..], m) == prefix + whole by {
        ExtendBlock(was, k, Get(v, k), Block(keys[i + 1..], m));
      }
      i := i + 1;
    }
  }

  lemma ExtendBlock(was: string, k: string, x: string, rest: string)
    ensures was + (['\n'] + Line(k, x) + rest) == was + ['\n'] + k + ['='] + x + rest
  {
  }

  /** Parameter order, repeated names and unsigned fields cannot change the text. */
  lemma OrderIndependent(p: seq<(string, string)>, q: seq<(string, string)>)
    requires FirstValues(p) - {"hash", "signature"} == FirstValues(q) - {"hash", "signature"}
    ensures Canonical(SignedFields(Collect(p))) == Canonical(SignedFields(Collect(q)))
  {
    SignedFieldsAreFirstValues(p);
    SignedFieldsAreFirstValues(q);
  }

  lemma SignedFieldsAreFirstValues(p: seq<(string, string)>)
    ensures SignedFields(Collect(p)) == FirstValues(p) - {"hash", "signature"}
  {
    hide Collect, FirstValues, Get;
    CollectKeepsFirstValue(p);
  }

  // ---- Reading the text back ----

  predicate Clean(m: Fields)
  {
    forall k <- m :: '=' !in k && '\n' !in k && '\n' !in m[k]
  }

  function FieldsOf(lines: seq<string>): Fields
  {
    if lines == [] then map[]
    else FieldsOf(lines[1..])[Cut(lines[0], '=').0 := Cut(lines[0], '=').1]
  }

  function Decode(s: string): Fields
  {
    if s == [] then map[] else FieldsOf(Split(s, '\n'))
  }

  function LinesOf(keys: seq<string>, m: Fields): seq<string>
    requires forall k <- keys :: k in m
  {
    seq(|keys|, i requires 0 <= i < |keys| => Line(keys[i], m[keys[i]]))
  }

  /** A line in front of further lines is the first piece of the cut. */
  lemma SplitLine(line: string, tail: string)
    requires '\n' !in line && (tail == [] || tail[0] == '\n')
    ensures Split(line + tail, '\n') == [line] + Split(tail, '\n')[1..]
  {
    if tail == [] {
      assert line + tail == line;
      SplitWithoutSeparator(line, '\n');
    } else {
      var rest := tail[1..];
      assert line + tail == line + ['\n'] + rest;
      SplitAtSeparator(line, '\n', rest);
      assert Split(tail, '\n') == [[]] + Split(rest, '\n');
      assert Split(tail, '\n')[1..] == Split(rest, '\n');
    }
  }

  lemma SplitOneMore(line: string, tail: string, lines: seq<string>)
    requires '\n' !in line && (tail == [] || tail[0] == '\n') && Split(tail, '\n') == [[]] + lines
    ensures Split(['\n'] + line + tail, '\n') == [[]] + ([line] + lines)
  {
    SplitLine(line, tail);
    hide Split;
    assert ['\n'] + line + tail == ['\n'] + (line + tail);
    SplitAtStart(line + tail);
    assert Split(tail, '\n')[1..] == lines;
  }

  lemma SplitAtStart(s: string)
    ensures Split(['\n'] + s, '\n') == [[]] + Split(s, '\n')
  {
    assert (['\n'] + s)[1..] == s;
  }

  lemma {:induction false} SplitBlock(keys: seq<string>, m: Fields)
    requires (forall k <- keys :: k in m) && Clean(m)
    ensures Split(Block(keys, m), '\n') == [[]] + LinesOf(keys, m)
  {
    if keys != [] {
      hide Clean, Line, Split;
      var k, rest := keys[0], keys[1..];
      SplitBlock(rest, m);
      CleanLine(m, k);
      SplitOneMore(Line(k, m[k]), Block(rest, m), LinesOf(rest, m));
      assert LinesOf(keys, m) == [Line(k, m[k])] + LinesOf(rest, m);
    }
  }

  lemma CleanLine(m: Fields, k: string)
    requires Clean(m) && k in m
    ensures '\n' !in Line(k, m[k])
  {
  }

  lemma {:induction false} FieldsOfLines(keys: seq<string>, m: Fields)
    requires (forall k <- keys :: k in m) && Clean(m)
    ensures FieldsOf(LinesOf(keys, m)) == map k | k in keys :: m[k]
  {
    if keys != [] {
      var k := keys[0];
      FieldsOfLines(keys[1..], m);
      assert LinesOf(keys, m)[1..] == LinesOf(keys[1..], m);
      CutAtFirst(k, '=', m[k]);
      assert keys == [k] + keys[1..];
    }
  }

  /** No field is lost or blurred: the text of a clean map reads back as that map. */
  lemma DecodeCanonical(m: Fields)
    requires Clean(m)
    ensures Decode(Canonical(m)) == m
  {
    if m != map[] {
      var keys := SortedKeys(m.Keys);
      assert m.Keys != {};
      var k :| k in m.Keys;
      assert k in keys;
      SplitBlock(keys, m);
      var b := Block(keys, m);
      assert b == ['\n'] + b[1..];
      assert Split(b, '\n') == [[]] + Split(b[1..], '\n');
      assert Split(b[1..], '\n') == Split(b, '\n')[1..] == LinesOf(keys, m);
      FieldsOfLines(keys, m);
      assert (map k | k in keys :: m[k]) == m;
      assert Block(keys, m)[1..] != [] by {
        assert b == ['\n'] + Line(keys[0], m[keys[0]]) + Block(keys[1..], m);
      }
    }
  }

  /** Two clean payloads with the same signed text carry the same signed fields. */
  lemma CanonicalIsInjective(m1: Fields, m2: Fields)
    requires Clean(m1) && Clean(m2) && Canonical(m1) == Canonical(m2)
    ensures m1 == m2
  {
    DecodeCanonical(m1);
    DecodeCanonical(m2);
  }

  // ---- When a text leaves no doubt about its fields ----

  /** Fields that can be signed at all. */
  predicate AllSigned(m: Fields) {
    forall k <- m :: Signed(k)
  }

  /** A name whose every shorter reading, up to an earlier `=`, is a name that is never signed. */
  predicate NoOtherName(k: string)
  {
    || '=' !in k
    || (|k| >= 5 && k[..5] == "hash=" && '=' !in k[5..])
    || (|k| >= 10 && k[..10] == "signature=" && '=' !in k[10..])
  }

  /** No field at all, or one without `=` in its value whose name has no other reading. */
  predicate Unmistakable(m: Fields)
  {
    m == map[] || (|m| == 1 && forall k <- m :: NoOtherName(k) && '=' !in m[k])
  }

  lemma CanonicalHead(m: Fields)
    requires m != map[]
    ensures var keys := SortedKeys(m.Keys);
            && keys != [] && keys[0] in m
            && Canonical(m) == Line(keys[0], m[keys[0]]) + Block(keys[1..], m)
  {
    var keys := SortedKeys(m.Keys);
    assert m.Keys != {};
    var k :| k in m.Keys;
    assert k in keys;
    assert keys[0] in keys;
    assert Block(keys, m) == ['\n'] + (Line(keys[0], m[keys[0]]) + Block(keys[1..], m));
  }

  lemma CanonicalOfOne(k: string, x: string)
    ensures Canonical(map[k := x]) == Line(k, x)
  {
    var m := map[k := x];
    assert Lists([k], m.Keys);
    ListingIsUnique(SortedKeys(m.Keys), [k], m.Keys);
    assert k in m;
    CanonicalHead(m);
    assert [k][1..] == [];
  }

  lemma OneField(m: Fields, k: string)
    requires |m| == 1 && k in m
    ensures m == map[k := m[k]]
  {
    assert |m.Keys - {k}| == 0;
    forall j | j in m
      ensures j == k
    {
      assert j in m.Keys - {k} || j == k;
    }
  }

  /** Several fields read as one whose value holds the other lines. */
  lemma SeveralReadAsOne(m: Fields)
    requires |m| >= 2 && AllSigned(m)
    ensures exists m' :: AllSigned(m') && m' != m && Canonical(m') == Canonical(m)
  {
    hide Canonical, Block, Line, Signed;
    NotEmpty(m);
    CanonicalHead(m);
    var keys := SortedKeys(m.Keys);
    FirstAbsorbs(m, keys[0], m[keys[0]], Block(keys[1..], m));
  }

  lemma NotEmpty(m: Fields)
    requires |m| > 0
    ensures m != map[]
  {
  }

  lemma FirstAbsorbs(m: Fields, k: string, x: string, rest: string)
    requires |m| >= 2 && Canonical(m) == Line(k, x) + rest && Signed(k)
    ensures exists m' :: AllSigned(m') && m' != m && Canonical(m') == Canonical(m)
  {
    hide Canonical, Signed;
    LineAbsorbs(k, x, rest);
    CanonicalOfOne(k, x + rest);
    OneKey(k, x + rest);
  }

  lemma LineAbsorbs(k: string, x: string, rest: string)
    ensures Line(k, x) + rest == Line(k, x + rest)
  {
  }

  lemma OneKey(k: string, x: string)
    ensures |map[k := x]| == 1
  {
  }

  lemma SameLine(k: string, x: string, k': string, x': string)
    requires Line(k, x) == Line(k', x') && |k| != |k'| && Signed(k')
    ensures exists m' :: AllSigned(m') && m' != map[k := x] && Canonical(m') == Canonical(map[k := x])
  {
    hide Canonical, Signed;
    CanonicalOfOne(k, x);
    CanonicalOfOne(k', x');
    var m' := map[k' := x'];
    assert k' in m' && k' !in map[k := x];
    assert AllSigned(m') && m' != map[k := x] && Canonical(m') == Canonical(map[k := x]);
  }

  /** Reading the name up to an earlier `=` inside it. */
  lemma ReadShorter(k: string, x: string, i: nat)
    requires i < |k| && k[i] == '=' && Signed(k[..i])
    ensures exists m' :: AllSigned(m') && m' != map[k := x] && Canonical(m') == Canonical(map[k := x])
  {
    hide Canonical, Signed;
    assert k == k[..i] + ['='] + k[i + 1..];
    assert Line(k, x) == Line(k[..i], k[i + 1..] + ['='] + x);
    SameLine(k, x, k[..i], k[i + 1..] + ['='] + x);
  }

  /** Reading the name on to a later `=`, inside the value. */
  lemma ReadLonger(k: string, x: string, i: nat)
    requires i < |x| && x[i] == '='
    ensures exists m' :: AllSigned(m') && m' != map[k := x] && Canonical(m') == Canonical(map[k := x])
  {
    hide Canonical, Signed;
    var k' := k + ['='] + x[..i];
    assert x == x[..i] + ['='] + x[i + 1..];
    assert Line(k, x) == Line(k', x[i + 1..]);
    assert k'[|k|] == '=';
    SignIsNeverReserved(k', |k|);
    SameLine(k, x, k', x[i + 1..]);
  }

  lemma SignIsNeverReserved(k: string, i: nat)
    requires i < |k| && k[i] == '='
    ensures Signed(k)
  {
    assert '=' !in "hash" && '=' !in "signature";
    assert '=' in k;
  }

  /** Where a name has another reading, one of its `=` ends a name that can be signed. */
  lemma OtherName(k: string) returns (i: nat)
    requires !NoOtherName(k)
    ensures i < |k| && k[i] == '=' && Signed(k[..i])
  {
    i :| 0 <= i < |k| && k[i] == '=';
    if !Signed(k[..i]) {
      assert k[..i + 1] == k[..i] + ['='];
      var y := k[i + 1..];
      assert '=' in y;
      var j :| 0 <= j < |y| && y[j] == '=';
      assert k[..i + 1 + j][i] == '=';
      SignIsNeverReserved(k[..i + 1 + j], i);
      i := i + 1 + j;
    }
  }

  /** A second `=` reads as the end of another name, unless that is a name that is never signed. */
  lemma SecondSignMisleads(m: Fields, k: string)
    requires |m| == 1 && k in m && !(NoOtherName(k) && '=' !in m[k])
    ensures exists m' :: AllSigned(m') && m' != m && Canonical(m') == Canonical(m)
  {
    hide Canonical, Signed, NoOtherName;
    OneField(m, k);
    if '=' in m[k] {
      var i :| 0 <= i < |m[k]| && m[k][i] == '=';
      ReadLonger(k, m[k], i);
    } else {
      var i := OtherName(k);
      ReadShorter(k, m[k], i);
    }
  }

  /** Two lines hold two signs, the first of them behind the first name. */
  lemma TwoSigns(k: string, x: string, keys: seq<string>, m: Fields)
    requires keys != [] && forall j <- keys :: j in m
    ensures var text := Line(k, x) + Block(keys, m);
            exists j :: |k| < j < |text| && text[|k|] == '=' && text[j] == '='
  {
    var text := Line(k, x) + Block(keys, m);
    assert Block(keys, m) == ['\n'] + Line(keys[0], m[keys[0]]) + Block(keys[1..], m);
    var j := |Line(k, x)| + 1 + |keys[0]|;
    assert text[|k|] == '=' && text[j] == Block(keys, m)[1 + |keys[0]|] == '=';
  }

  /** The name read up to the one `=` inside a name without another reading is never signed. */
  lemma ShorterIsReserved(k: string, j: nat)
    requires NoOtherName(k) && j < |k| && k[j] == '='
    ensures !Signed(k[..j])
  {
    assert k[j] in k;
    var n := if |k| >= 5 && k[..5] == "hash=" && '=' !in k[5..] then 5 else 10;
    assert forall i :: n <= i < |k| ==> k[i] == k[n..][i - n] && k[n..][i - n] in k[n..];
    assert k[j] == k[..n][j];
    assert k[..j] == k[..n][..j];
  }

  /** The `=` that ends the first name of a signed map with this text is the one that ends k. */
  lemma FirstSignIsTheName(k: string, x: string, j: nat)
    requires NoOtherName(k) && '=' !in x && j < |Line(k, x)| && Line(k, x)[j] == '=' && Signed(Line(k, x)[..j])
    ensures j == |k|
  {
    hide Signed, NoOtherName;
    assert Line(k, x)[..j] == if j < |k| then k[..j] else Line(k, x)[..j];
    if j < |k| {
      ShorterIsReserved(k, j);
      assert false;
    }
  }

  lemma OnlyReading(m: Fields, m': Fields, k: string)
    requires |m| == 1 && k in m && NoOtherName(k) && '=' !in m[k]
    requires AllSigned(m') && Canonical(m') == Canonical(m)
    ensures m' == m
  {
    hide NoOtherName, Signed;
    var x, text := m[k], Canonical(m);
    OneField(m, k);
    CanonicalOfOne(k, x);
    assert m' != map[] by {
      assert text[|k|] == '=';
    }
    CanonicalHead(m');
    var keys := SortedKeys(m'.Keys);
    var k' := keys[0];
    var x' := m'[k'];
    assert text[|k'|] == '=' && text[..|k'|] == k';
    FirstSignIsTheName(k, x, |k'|);
    assert keys[1..] == [] by {
      if keys[1..] != [] {
        TwoSigns(k', x', keys[1..], m');
        assert false;
      }
    }
    assert text == Line(k', x') == Line(k, x);
    assert k' == text[..|k|] == k && x' == text[|k| + 1..] == x;
    assert keys == [k];
    assert m'.Keys == {k};
  }

  /**
   Among fields that can be signed, a text determines its fields exactly when there is none,
   or one without `=` in its value whose name has no other reading.
   */
  lemma TextDeterminesFields(m: Fields)
    requires AllSigned(m)
    ensures (forall m' :: AllSigned(m') && Canonical(m') == Canonical(m) ==> m' == m) <==> Unmistakable(m)
  {
    hide Canonical, AllSigned, NoOtherName;
    if Unmistakable(m) {
      forall m' | AllSigned(m') && Canonical(m') == Canonical(m)
        ensures m' == m
      {
        if m == map[] {
          EmptyText(m');
        } else {
          var k :| k in m;
          OnlyReading(m, m', k);
        }
      }
    } else if |m| >= 2 {
      SeveralReadAsOne(m);
    } else {
      var k :| k in m && !(NoOtherName(k) && '=' !in m[k]);
      SecondSignMisleads(m, k);
    }
  }

  lemma EmptyText(m: Fields)
    ensures Canonical(map[]) == []
    ensures Canonical(m) == [] ==> m == map[]
  {
    if m != map[] {
      CanonicalHead(m);
    }
  }

  /** What Verify signs is such a map, and every such map is what Verify signs of some parameters. */
  lemma SignedFieldsAreAllSigned(v: Values, m: Fields)
    ensures AllSigned(SignedFields(v))
    ensures AllSigned(m) ==> SignedFields(map k | k in m :: [m[k]]) == m
  {
  }

  // ---- The text, spelled out ----

  /** a is a proper prefix of b, or has the smaller character where they first differ. */
  ghost predicate Precedes(a: string, b: string)
  {
    exists i :: && 0 <= i <= |a| && i < |b| && a[..i] == b[..i]
                && (i == |a| || a[i] < b[i])
  }

  lemma {:induction false} LessIsLexicographic(a: string, b: string)
    ensures Less(a, b) <==> Precedes(a, b)
  {
    if a == [] || b == [] || a[0] != b[0] {
      if Less(a, b) {
        assert a[..0] == b[..0];
      }
      if Precedes(a, b) {
        var i :| 0 <= i <= |a| && i < |b| && a[..i] == b[..i] && (i == |a| || a[i] < b[i]);
        assert i > 0 ==> a[..i][0] == b[..i][0];
      }
    } else {
      LessIsLexicographic(a[1..], b[1..]);
      if Precedes(a[1..], b[1..]) {
        var i :| && 0 <= i <= |a[1..]| && i < |b[1..]| && a[1..][..i] == b[1..][..i]
                 && (i == |a[1..]| || a[1..][i] < b[1..][i]);
        assert a[..i + 1] == [a[0]] + a[1..][..i] && b[..i + 1] == [b[0]] + b[1..][..i];
      }
      if Precedes(a, b) {
        var i :| 0 <= i <= |a| && i < |b| && a[..i] == b[..i] && (i == |a| || a[i] < b[i]);
        assert a[1..][..i - 1] == a[..i][1..] && b[1..][..i - 1] == b[..i][1..];
      }
    }
  }

  /** The lines with a newline between each two. */
  function Join(lines: seq<string>): string
  {
    if lines == [] then ""
    else if |lines| == 1 then lines[0]
    else lines[0] + "\n" + Join(lines[1..])
  }

  function Lines(keys: seq<string>, m: Fields): seq<string>
    requires forall k <- keys :: k in m
  {
    seq(|keys|, i requires 0 <= i < |keys| => keys[i] + "=" + m[keys[i]])
  }

  lemma {:induction false} BlockIsJoined(keys: seq<string>, m: Fields)
    requires keys != [] && forall k <- keys :: k in m
    ensures Block(keys, m) == "\n" + Join(Lines(keys, m))
  {
    var lines := Lines(keys, m);
    assert lines[0] == Line(keys[0], m[keys[0]]);
    if |keys| > 1 {
      BlockIsJoined(keys[1..], m);
      assert lines[1..] == Lines(keys[1..], m);
    } else {
      assert keys[1..] == [];
    }
  }

  /** The signed text is one `name=value` line per field, in ascending order of names. */
  lemma CanonicalIsSpelled(m: Fields)
    ensures exists keys ::
              && (forall i, j :: 0 <= i < j < |keys| ==> Precedes(keys[i], keys[j]))
              && (forall k :: k in keys <==> k in m)
              && Canonical(m) == Join(Lines(keys, m))
  {
    hide Less, Precedes;
    var keys := SortedKeys(m.Keys);
    forall i, j | 0 <= i < j < |keys|
      ensures Precedes(keys[i], keys[j])
    {
      LessIsLexicographic(keys[i], keys[j]);
    }
    assert forall k :: k in keys <==> k in m;
    if m == map[] {
      HeadBelongs(keys);
    } else {
      CanonicalHead(m);
      BlockIsJoined(keys, m);
    }
    assert Canonical(m) == Join(Lines(keys, m));
  }
}
