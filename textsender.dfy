/**
 * The text sender: a submitted message floats in a list until its timer
 * removes it again.
 */
module TextSender {
  import opened Common

  /** The characters `String.prototype.trim` removes: white space and line terminators. */
  predicate IsJsWhitespace(c: char) {
    || c == '\U{0009}' || c == '\U{000B}' || c == '\U{000C}' || c == '\U{0020}' || c == '\U{00A0}'
    || c == '\U{FEFF}' || c == '\U{1680}' || ('\U{2000}' <= c <= '\U{200A}') || c == '\U{202F}'
    || c == '\U{205F}' || c == '\U{3000}'
    || c == '\U{000A}' || c == '\U{000D}' || c == '\U{2028}' || c == '\U{2029}'
  }

  /** Only white space: what `trim()` turns into the falsy empty string. */
  predicate Blank(s: string) {
    forall i | 0 <= i < |s| :: IsJsWhitespace(s[i])
  }

  /** `s` without its leading white space. */
  function TrimStart(s: string): (r: string)
    ensures |r| <= |s| && r == s[|s| - |r|..]
    ensures Blank(s[..|s| - |r|])
    ensures r == [] || !IsJsWhitespace(r[0])
    decreases |s|
  {
    if s == [] || !IsJsWhitespace(s[0]) then s
    else
      var r := TrimStart(s[1..]);
      assert s[..|s| - |r|] == [s[0]] + s[1..][..|s| - 1 - |r|];
      r
  }

  /** `s` without its trailing white space. */
  function TrimEnd(s: string): (r: string)
    ensures |r| <= |s| && r == s[..|r|]
    ensures Blank(s[|r|..])
    ensures r == [] || !IsJsWhitespace(r[|r| - 1])
    decreases |s|
  {
    if s == [] || !IsJsWhitespace(s[|s| - 1]) then s
    else
      var r := TrimEnd(s[..|s| - 1]);
      assert s[|r|..] == s[..|s| - 1][|r|..] + [s[|s| - 1]];
      r
  }

  /** `r` is `s` with a blank prefix of length `k` and a blank suffix removed. */
  predicate TrimmedAt(s: string, r: string, k: nat) {
    && k + |r| <= |s| && s[k..k + |r|] == r
    && Blank(s[..k]) && Blank(s[k + |r|..])
  }

  /** `r` is what is left of `s` once some blank prefix and some blank suffix are cut off. */
  ghost predicate IsTrimOf(s: string, r: string) {
    exists k :: TrimmedAt(s, r, k)
  }

  /** Neither the first nor the last character of `r` is white space. */
  predicate NoOuterBlank(r: string) {
    r == [] || (!IsJsWhitespace(r[0]) && !IsJsWhitespace(r[|r| - 1]))
  }

  /** `s.trim()`: the middle of `s`, between a blank prefix and a blank suffix, with no white space at either end. */
  function Trim(s: string): (r: string)
    ensures |r| <= |s| && Contains(s, r)
    ensures IsTrimOf(s, r) && NoOuterBlank(r)
  {
    var a := TrimStart(s);
    var r := TrimEnd(a);
    TrimFacts(s, a, r);
    r
  }

  /**
   * The slice `Trim` keeps, from what its two passes promise: `a` is a
   * suffix of `s` after a blank prefix, and `r` a prefix of `a` before a
   * blank suffix.
   */
  lemma TrimFacts(s: string, a: string, r: string)
    requires |a| <= |s| && a == s[|s| - |a|..] && Blank(s[..|s| - |a|]) && (a == [] || !IsJsWhitespace(a[0]))
    requires |r| <= |a| && r == a[..|r|] && Blank(a[|r|..]) && (r == [] || !IsJsWhitespace(r[|r| - 1]))
    ensures |r| <= |s| && Contains(s, r)
    ensures TrimmedAt(s, r, |s| - |a|) && IsTrimOf(s, r) && NoOuterBlank(r)
  {
    PrefixOfSuffix(s, a, r);
    SuffixOfSuffixBlank(s, a, r);
    assert OccursAt(s, r, |s| - |a|);
    assert TrimmedAt(s, r, |s| - |a|);
    if r != [] {
      assert r[0] == a[0];
    }
  }

  /** A prefix of a suffix of `s` is a slice of `s`. */
  lemma PrefixOfSuffix(s: string, a: string, r: string)
    requires |a| <= |s| && a == s[|s| - |a|..] && |r| <= |a| && r == a[..|r|]
    ensures s[|s| - |a|..|s| - |a| + |r|] == r
  {
  }

  /** Whatever follows that slice in `s` is what follows `r` in `a`. */
  lemma SuffixOfSuffixBlank(s: string, a: string, r: string)
    requires |a| <= |s| && a == s[|s| - |a|..] && |r| <= |a| && Blank(a[|r|..])
    ensures Blank(s[|s| - |a| + |r|..])
  {
    assert s[|s| - |a| + |r|..] == a[|r|..];
  }

  /** `message.trim()` is falsy exactly when the message is only white space. */
  lemma TrimEmptyIffBlank(s: string)
    ensures Trim(s) == [] <==> Blank(s)
  {
    var a := TrimStart(s);
    if Trim(s) == [] {
      assert Blank(a[0..]);
      assert a == [];
      forall i | 0 <= i < |s| ensures IsJsWhitespace(s[i]) {
        assert s[..|s| - |a|][i] == s[i];
      }
    } else {
      var k := |s| - |a|;
      assert a != [];
      assert !IsJsWhitespace(s[k]) by { assert a[0] == s[k]; }
    }
  }

  /** `filter(msg => msg !== x)`. */
  function RemoveAll(s: seq<string>, x: string): (r: seq<string>)
    ensures x !in r
    ensures forall y | y != x :: multiset(r)[y] == multiset(s)[y]
    ensures |r| <= |s|
    decreases |s|
  {
    if s == [] then []
    else
      var rest := RemoveAll(s[..|s| - 1], x);
      var last := s[|s| - 1];
      assert s == s[..|s| - 1] + [last];
      if last == x then rest else rest + [last]
  }

  /** Filtering a concatenation filters each part, so the kept entries keep their order. */
  lemma {:induction false} RemoveAllAppend(a: seq<string>, b: seq<string>, x: string)
    ensures RemoveAll(a + b, x) == RemoveAll(a, x) + RemoveAll(b, x)
    decreases |b|
  {
    if b != [] {
      var init := b[..|b| - 1];
      assert (a + b)[..|a + b| - 1] == a + init;
      RemoveAllAppend(a, init, x);
    } else {
      assert a + b == a;
    }
  }

  /** A list without `x` is left as it is. */
  lemma {:induction false} RemoveAllAbsent(s: seq<string>, x: string)
    requires x !in s
    ensures RemoveAll(s, x) == s
    decreases |s|
  {
    if s != [] {
      RemoveAllAbsent(s[..|s| - 1], x);
      assert s == s[..|s| - 1] + [s[|s| - 1]];
    }
  }

  /** The component's state hooks. */
  class Component {
    var message: string
    var messages: seq<string>

    constructor ()
      ensures message == "" && messages == []
    {
      message, messages := "", [];
    }

    /** The input's `onChange`. */
    method Type(text: string)
      modifies this
      ensures message == text && messages == old(messages)
    {
      message := text;
    }

    /**
     * `handleSubmit`: a message that is not blank goes to the end of the
     * list as typed and the input is cleared; `scheduled` is the text the
     * removal timer will filter out. A blank message changes nothing.
     */
    method HandleSubmit() returns (scheduled: Option<string>)
      modifies this
      ensures Blank(old(message)) ==> messages == old(messages) && message == old(message) && scheduled.None?
      ensures !Blank(old(message)) ==>
                messages == old(messages) + [old(message)] && message == "" && scheduled == Some(old(message))
    {
      TrimEmptyIffBlank(message);
      if Trim(message) != [] {
        messages := messages + [message];
        scheduled := Some(message);
        message := "";
      } else {
        scheduled := None;
      }
    }

    /** The removal timer firing for `text`: every entry equal to it goes, the others stay in order. */
    method ExpireMessage(text: string)
      modifies this
      ensures messages == RemoveAll(old(messages), text) && message == old(message)
    {
      messages := RemoveAll(messages, text);
    }
  }
}
