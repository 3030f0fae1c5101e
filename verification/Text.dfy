/** Splitting and joining strings at one character, as Python's `split` and `join` do. */
module Text {

  /** The pieces between the separators: always at least one. */
  function Split(s: string, c: char): (r: seq<string>)
    ensures r != []
    ensures forall i | 0 <= i < |r| :: c !in r[i]
  {
    if s == "" then [""]
    else
      var rest := Split(s[1..], c);
      if s[0] == c then [""] + rest else [[s[0]] + rest[0]] + rest[1..]
  }

  lemma {:induction false} SplitNone(s: string, c: char)
    requires c !in s
    ensures Split(s, c) == [s]
  {
    if s != "" {
      assert s[0] in s && c !in s[1..];
      SplitNone(s[1..], c);
      assert [s[0]] + s[1..] == s;
    }
  }

  function Join(parts: seq<string>, c: char): string
    requires parts != []
  {
    if |parts| == 1 then parts[0] else parts[0] + [c] + Join(parts[1..], c)
  }

  lemma {:induction false} JoinSplit(s: string, c: char)
    ensures Join(Split(s, c), c) == s
  {
    if s != "" {
      JoinSplit(s[1..], c);
      var rest := Split(s[1..], c);
      var parts := Split(s, c);
      if s[0] == c {
        assert parts[1..] == rest;
        assert Join(parts, c) == "" + [c] + Join(rest, c) == [c] + s[1..];
      } else if |rest| > 1 {
        assert parts[1..] == rest[1..] && parts[0] == [s[0]] + rest[0];
        assert Join(parts, c) == [s[0]] + (rest[0] + [c] + Join(rest[1..], c));
      }
    }
  }

  /** Splitting takes the first piece off, if it has no separator. */
  lemma {:induction false} SplitFirst(x: string, c: char, rest: string)
    requires c !in x
    ensures Split(x + [c] + rest, c) == [x] + Split(rest, c)
  {
    if x == "" {
      assert x + [c] + rest == [c] + rest && ([c] + rest)[1..] == rest;
    } else {
      assert (x + [c] + rest)[1..] == x[1..] + [c] + rest;
      SplitFirst(x[1..], c, rest);
      assert Split(x + [c] + rest, c)[0] == [x[0]] + x[1..] == x;
    }
  }

  lemma {:induction false} SplitJoin(parts: seq<string>, c: char)
    requires parts != [] && forall i | 0 <= i < |parts| :: c !in parts[i]
    ensures Split(Join(parts, c), c) == parts
  {
    if |parts| > 1 {
      SplitJoin(parts[1..], c);
      SplitFirst(parts[0], c, Join(parts[1..], c));
    } else {
      SplitNone(parts[0], c);
    }
  }
}
