/** Command names as they are typed: `/name`, in any case, perhaps for one bot, perhaps with arguments. */
module Commands {
  import opened Results
  import opened Text
  import opened Identifiers

  /** strings.Fields, as far as the first field of a trimmed text goes. */
  function FirstField(s: string): string
  {
    if s == [] || IsSpace(s[0]) then [] else [s[0]] + FirstField(s[1..])
  }

  /** parseCommand; the arguments are the handler's business. */
  function ParseCommand(text: string): Option<string>
  {
    var t := TrimSpace(text);
    if t == [] || t[0] != '/' then None
    else
      var name := Cut(ToLower(FirstField(t)[1..]), '@').0;
      if name == [] then None else Some(name)
  }

  /** What may follow a name: nothing, the name of a bot, or arguments. */
  predicate EndsName(suffix: string) {
    suffix == [] || suffix[0] == '@' || IsSpace(suffix[0])
  }

  predicate Plain(name: string) {
    forall c <- name :: !IsSpace(c) && c != '@'
  }

  lemma {:induction false} FirstFieldOf(name: string, suffix: string)
    requires (forall c <- name :: !IsSpace(c)) && EndsName(suffix)
    ensures exists k :: 0 <= k <= |suffix| && FirstField(name + suffix) == name + suffix[..k]
                        && (k > 0 ==> suffix[0] == '@')
  {
    if name == [] {
      assert name + suffix == suffix;
      FirstFieldIsPrefix(suffix);
      var k :| 0 <= k <= |suffix| && FirstField(suffix) == suffix[..k];
      assert FirstField(name + suffix) == name + suffix[..k];
    } else {
      assert (name + suffix)[1..] == name[1..] + suffix;
      FirstFieldOf(name[1..], suffix);
      var k :| 0 <= k <= |suffix| && FirstField(name[1..] + suffix) == name[1..] + suffix[..k]
               && (k > 0 ==> suffix[0] == '@');
      assert name == [name[0]] + name[1..];
      assert FirstField(name + suffix) == name + suffix[..k];
    }
  }

  lemma {:induction false} FirstFieldIsPrefix(s: string)
    ensures exists k :: 0 <= k <= |s| && FirstField(s) == s[..k]
  {
    if s == [] || IsSpace(s[0]) {
      assert FirstField(s) == s[..0];
    } else {
      FirstFieldIsPrefix(s[1..]);
      var k :| 0 <= k <= |s[1..]| && FirstField(s[1..]) == s[1..][..k];
      assert FirstField(s) == s[..k + 1];
    }
  }

  lemma {:induction false} TrimRightKeeps(a: string, b: string)
    requires a != [] && !IsSpace(a[|a| - 1])
    ensures exists k :: 0 <= k <= |b| && TrimRight(a + b) == a + b[..k]
  {
    if b == [] || !IsSpace(b[|b| - 1]) {
      assert TrimRight(a + b) == a + b[..|b|];
    } else {
      var n := |b| - 1;
      assert (a + b)[..|a + b| - 1] == a + b[..n];
      TrimRightKeeps(a, b[..n]);
      var k :| 0 <= k <= n && TrimRight(a + b[..n]) == a + b[..n][..k];
      assert TrimRight(a + b) == a + b[..k];
    }
  }

  lemma CutOfLower(name: string, rest: string)
    requires Plain(name) && (rest == [] || rest[0] == '@')
    ensures Cut(ToLower(name + rest), '@').0 == ToLower(name)
  {
    var low := ToLower(name);
    assert forall i :: 0 <= i < |low| ==> low[i] == Lower(name[i]) && name[i] in name;
    if rest == [] {
      assert name + rest == name;
      CutWithout(low, '@');
    } else {
      assert ToLower(name + rest) == low + ['@'] + ToLower(rest[1..]);
      CutAtFirst(low, '@', ToLower(rest[1..]));
    }
  }

  lemma {:induction false} CutWithout(s: string, sep: char)
    requires sep !in s
    ensures Cut(s, sep) == (s, [])
  {
    if s != [] {
      CutWithout(s[1..], sep);
      assert s == [s[0]] + s[1..];
    }
  }

  /** Every way of typing a command is read as its lower-case name, whatever the padding, case, bot and arguments. */
  lemma CommandIsRead(left: string, name: string, suffix: string)
    requires Spaces(left) && name != [] && Plain(name) && EndsName(suffix)
    ensures ParseCommand(left + ['/'] + name + suffix) == Some(ToLower(name))
  {
    hide ToLower, Cut, FirstField;
    var word := ['/'] + name;
    assert left + ['/'] + name + suffix == left + (word + suffix);
    TrimLeftPadding(left, word + suffix);
    assert word[|word| - 1] == name[|name| - 1] && name[|name| - 1] in name;
    TrimRightKeeps(word, suffix);
    var t := TrimSpace(left + ['/'] + name + suffix);
    var k :| 0 <= k <= |suffix| && t == word + suffix[..k];
    assert forall c <- word :: !IsSpace(c);
    FirstFieldOf(word, suffix[..k]);
    var m :| 0 <= m <= k && FirstField(t) == word + suffix[..k][..m] && (m > 0 ==> suffix[0] == '@');
    assert FirstField(t)[1..] == name + suffix[..m];
    CutOfLower(name, suffix[..m]);
  }

  // ---- Which texts are commands, spelled out ----

  predicate NoCapitals(s: string) {
    forall c <- s :: !('A' <= c <= 'Z')
  }

  /** The text is white space, a slash, the name in any letter case, and nothing, a bot or arguments behind it. */
  ghost predicate Types(text: string, v: string)
  {
    exists left, name, suffix ::
      && Spaces(left) && name != [] && Plain(name) && EndsName(suffix) && text == left + ['/'] + name + suffix
      && CaseVariant(name, v) && NoCapitals(v)
  }

  lemma {:induction false} FirstFieldEnds(s: string) returns (k: nat)
    ensures k <= |s| && FirstField(s) == s[..k] && (forall c <- s[..k] :: !IsSpace(c)) && (k == |s| || IsSpace(s[k]))
  {
    if s == [] || IsSpace(s[0]) {
      k := 0;
    } else {
      var n := FirstFieldEnds(s[1..]);
      k := n + 1;
      assert s[..k] == [s[0]] + s[1..][..n];
    }
  }

  lemma {:induction false} CutEnds(s: string, sep: char) returns (k: nat)
    ensures k <= |s| && Cut(s, sep).0 == s[..k] && sep !in s[..k] && (k == |s| || s[k] == sep)
  {
    if s == [] || s[0] == sep {
      k := 0;
    } else {
      var n := CutEnds(s[1..], sep);
      k := n + 1;
      assert s[..k] == [s[0]] + s[1..][..n];
    }
  }

  lemma LowerIsLower(s: string)
    ensures NoCapitals(ToLower(s)) && CaseVariant(s, ToLower(s))
    ensures NoCapitals(s) ==> ToLower(s) == s
  {
    forall c | c in ToLower(s)
      ensures !('A' <= c <= 'Z')
    {
      var i :| 0 <= i < |s| && ToLower(s)[i] == c;
    }
    if NoCapitals(s) {
      forall i | 0 <= i < |s|
        ensures ToLower(s)[i] == s[i]
      {
        assert s[i] in s;
      }
    }
  }

  /** The name in a first field, without its slash. */
  lemma NameOfField(f: string, v: string) returns (j: nat)
    requires (forall c <- f :: !IsSpace(c)) && Cut(ToLower(f), '@').0 == v
    ensures j <= |f| && ToLower(f[..j]) == v && Plain(f[..j]) && (j == |f| || f[j] == '@')
  {
    hide IsSpace, Cut;
    j := CutEnds(ToLower(f), '@');
    assert ToLower(f[..j]) == ToLower(f)[..j];
    forall c | c in f[..j]
      ensures !IsSpace(c) && c != '@'
    {
      var i :| 0 <= i < j && f[i] == c;
      assert f[i] in f;
      assert ToLower(f)[..j][i] == Lower(c) && ToLower(f)[..j][i] in ToLower(f)[..j];
    }
  }

  lemma FieldWasTyped(left: string, f: string, tail: string, v: string)
    requires Spaces(left) && (forall c <- f :: !IsSpace(c)) && (tail == [] || IsSpace(tail[0]))
    requires Cut(ToLower(f), '@').0 == v && v != []
    ensures Types(left + ['/'] + f + tail, v)
  {
    hide IsSpace, Cut;
    var j := NameOfField(f, v);
    var name, suffix := f[..j], f[j..] + tail;
    assert EndsName(suffix);
    assert left + ['/'] + f + tail == left + ['/'] + name + suffix;
    LowerIsLower(name);
  }

  lemma ReadWasTyped(text: string, v: string)
    requires ParseCommand(text) == Some(v)
    ensures Types(text, v)
  {
    hide TrimSpace, FirstField, Cut, IsSpace, Types;
    TrimSpaceUnpads(text);
    var t := TrimSpace(text);
    var left, right :| Spaces(left) && Spaces(right) && text == left + t + right;
    var k := FirstFieldEnds(t);
    SlashIsNoSpace();
    var f, tail := t[1..k], t[k..] + right;
    assert FirstField(t)[1..] == f;
    assert forall c <- f :: c in t[..k];
    assert k == |t| ==> tail == right && (right == [] || right[0] in right);
    assert text == left + ['/'] + f + tail;
    FieldWasTyped(left, f, tail, v);
  }

  lemma SlashIsNoSpace()
    ensures !IsSpace('/')
  {
  }

  /** Exactly these texts are commands, and of exactly these names. */
  lemma CommandIsExact(text: string, v: string)
    ensures ParseCommand(text) == Some(v) <==> Types(text, v)
  {
    hide ParseCommand, CaseVariant, NoCapitals;
    if ParseCommand(text) == Some(v) {
      ReadWasTyped(text, v);
    }
    if Types(text, v) {
      var left, name, suffix :| && Spaces(left) && name != [] && Plain(name) && EndsName(suffix)
                                && text == left + ['/'] + name + suffix && CaseVariant(name, v) && NoCapitals(v);
      CommandIsRead(left, name, suffix);
      LowerForgetsCase(name, v);
      LowerIsLower(v);
    }
  }
}
