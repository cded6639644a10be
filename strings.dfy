/** The string operations of the components: `split` on one character, field extraction, initials. */
module Strings {
  import opened Wrappers
  import opened Seqs

  /** `s.split(sep)` for a one-character separator: the fields between separators, in order, empty fields kept. */
  function Split(s: string, sep: char): (parts: seq<string>)
    ensures |parts| >= 1
    ensures forall i | 0 <= i < |parts| :: sep !in parts[i]
    decreases |s|
  {
    var k := IndexOf(s, sep);
    if k == -1 then [s] else [s[..k]] + Split(s[k + 1..], sep)
  }

  /** `parts.join(sep)`, the inverse of `Split`. */
  function Join(parts: seq<string>, sep: char): string
    requires |parts| >= 1
  {
    if |parts| == 1 then parts[0] else parts[0] + [sep] + Join(parts[1..], sep)
  }

  lemma {:induction false} JoinSplit(s: string, sep: char)
    ensures Join(Split(s, sep), sep) == s
    decreases |s|
  {
    var k := IndexOf(s, sep);
    if k != -1 {
      JoinSplit(s[k + 1..], sep);
      assert Split(s, sep)[1..] == Split(s[k + 1..], sep);
      assert s == s[..k] + [sep] + s[k + 1..];
    }
  }

  lemma {:induction false} SplitJoin(parts: seq<string>, sep: char)
    requires |parts| >= 1
    requires forall i | 0 <= i < |parts| :: sep !in parts[i]
    ensures Split(Join(parts, sep), sep) == parts
    decreases |parts|
  {
    var s := Join(parts, sep);
    if |parts| == 1 {
    } else {
      var rest := Join(parts[1..], sep);
      assert s == parts[0] + [sep] + rest;
      var k := IndexOf(s, sep);
      assert s[|parts[0]|] == sep;
      assert k == |parts[0]|;
      assert s[..k] == parts[0];
      assert s[k + 1..] == rest;
      SplitJoin(parts[1..], sep);
    }
  }

  /** `s.split(":")[2]`: the third colon-separated field, absent when there are fewer than three. */
  function ThirdField(s: string): Option<string> {
    var parts := Split(s, ':');
    if |parts| >= 3 then Some(parts[2]) else None
  }

  /** For a raw id built as `a:b:c...`, the third field is `c`. */
  lemma ThirdFieldOfJoin(parts: seq<string>)
    requires |parts| >= 3
    requires forall i | 0 <= i < |parts| :: ':' !in parts[i]
    ensures ThirdField(Join(parts, ':')) == Some(parts[2])
  {
    SplitJoin(parts, ':');
  }

  /** The third field of a raw id written out as `a:b:c`, with no `:` inside the parts, is `c`. */
  lemma ThirdFieldOfRawId(a: string, b: string, c: string)
    requires ':' !in a && ':' !in b && ':' !in c
    ensures ThirdField(a + ":" + b + ":" + c) == Some(c)
  {
    assert Join([c], ':') == c;
    assert [b, c][1..] == [c];
    assert Join([b, c], ':') == b + [':'] + c;
    assert [a, b, c][1..] == [b, c];
    assert Join([a, b, c], ':') == a + ":" + b + ":" + c;
    ThirdFieldOfJoin([a, b, c]);
  }

  /** `toUpperCase` on one character, for the ASCII letters. */
  function UpperChar(c: char): (r: char)
    ensures 'a' <= c <= 'z' ==> 'A' <= r <= 'Z' && r as int + 32 == c as int
    ensures !('a' <= c <= 'z') ==> r == c
  {
    if 'a' <= c <= 'z' then (c as int - 32) as char else c
  }

  function UpperCase(s: string): (r: string)
    ensures |r| == |s|
    ensures forall i | 0 <= i < |s| :: r[i] == UpperChar(s[i])
  {
    if |s| == 0 then [] else [UpperChar(s[0])] + UpperCase(s[1..])
  }
}
