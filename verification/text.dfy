/** The JavaScript string operations the back end relies on: `startsWith`, `split` on a
    one-character separator, and the `lowercase` schema setter. */
module Text {

  /** `s.startsWith(p)`. */
  predicate StartsWith(s: string, p: string) {
    |p| <= |s| && s[..|p|] == p
  }

  /** `s.split(c)` for a one-character separator `c`: the runs of `s` between
      occurrences of `c`, in order, empty runs included. */
  function Split(s: string, c: char): (parts: seq<string>)
    ensures |parts| >= 1
    ensures forall i :: 0 <= i < |parts| ==> c !in parts[i]
    decreases |s|
  {
    if s == [] then [""]
    else
      var rest := Split(s[1..], c);
      if s[0] == c then [""] + rest
      else [[s[0]] + rest[0]] + rest[1..]
  }

  /** `parts.join(c)`, the inverse of `Split`. */
  function Join(parts: seq<string>, c: char): string
    requires |parts| >= 1
  {
    if |parts| == 1 then parts[0] else parts[0] + [c] + Join(parts[1..], c)
  }

  /** Splitting loses nothing: joining the parts back gives the original string. */
  lemma {:induction false} JoinSplit(s: string, c: char)
    ensures Join(Split(s, c), c) == s
    decreases |s|
  {
    if s != [] {
      var rest := Split(s[1..], c);
      JoinSplit(s[1..], c);
      if s[0] == c {
        assert Split(s, c) == [""] + rest;
        assert ([""] + rest)[1..] == rest;
      } else {
        var parts := Split(s, c);
        assert parts == [[s[0]] + rest[0]] + rest[1..];
        if |rest| == 1 {
          assert Join(parts, c) == [s[0]] + rest[0];
        } else {
          assert parts[1..] == rest[1..];
          assert Join(parts, c) == [s[0]] + rest[0] + [c] + Join(rest[1..], c);
        }
      }
    }
  }

  /** A prefix free of the separator glues onto the first part of the rest. */
  lemma {:induction false} SplitSeparatorFreePrefix(p: string, rest: string, c: char)
    requires c !in p
    ensures Split(p + rest, c) == [p + Split(rest, c)[0]] + Split(rest, c)[1..]
    decreases |p|
  {
    if p == [] {
      var parts := Split(rest, c);
      assert p + rest == rest && p + parts[0] == parts[0];
      assert [parts[0]] + parts[1..] == parts;
    } else {
      assert (p + rest)[1..] == p[1..] + rest;
      SplitSeparatorFreePrefix(p[1..], rest, c);
      assert [p[0]] + (p[1..] + Split(rest, c)[0]) == p + Split(rest, c)[0];
    }
  }

  /** A leading separator closes an empty first part. */
  lemma SplitLeadingSeparator(rest: string, c: char)
    ensures Split([c] + rest, c) == [""] + Split(rest, c)
  {
    assert ([c] + rest)[1..] == rest;
  }

  /** The lowercase mapping of one character (ASCII letters only). */
  function LowerChar(ch: char): char {
    if 'A' <= ch <= 'Z' then (ch as int - 'A' as int + 'a' as int) as char else ch
  }

  predicate IsLower(s: string) {
    forall i :: 0 <= i < |s| ==> !('A' <= s[i] <= 'Z')
  }

  /** The `lowercase: true` schema setter. */
  function Lower(s: string): (r: string)
    ensures |r| == |s| && IsLower(r)
    ensures forall i :: 0 <= i < |s| ==> LowerChar(r[i]) == LowerChar(s[i])
    ensures IsLower(s) ==> r == s
  {
    seq(|s|, i requires 0 <= i < |s| => LowerChar(s[i]))
  }
}
