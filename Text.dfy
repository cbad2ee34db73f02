/** The few Python string operations the chat relies on, over `seq<char>`. */
module Text {

  /** `s.startswith(prefix)` */
  predicate StartsWith(s: string, prefix: string) {
    |prefix| <= |s| && s[..|prefix|] == prefix
  }

  /** `s.endswith(suffix)` */
  predicate EndsWith(s: string, suffix: string) {
    |suffix| <= |s| && s[|s| - |suffix|..] == suffix
  }

  /** `s.split("\n")`: never empty, and `""` splits into `[""]`. */
  function Split(s: string): (lines: seq<string>)
    ensures |lines| > 0
    ensures forall i :: 0 <= i < |lines| ==> '\n' !in lines[i]
  {
    if s == [] then [[]]
    else
      var rest := Split(s[1..]);
      if s[0] == '\n' then [[]] + rest
      else [[s[0]] + rest[0]] + rest[1..]
  }

  /** `"\n".join(lines)`: the first line comes first, then a newline if more lines follow. */
  function Join(lines: seq<string>): (s: string)
    ensures lines != [] ==> StartsWith(s, lines[0])
    ensures |lines| > 1 ==> StartsWith(s, lines[0] + "\n")
  {
    if lines == [] then []
    else if |lines| == 1 then lines[0]
    else lines[0] + "\n" + Join(lines[1..])
  }

  /** Splitting on newlines and joining back with newlines gives the original text. */
  lemma {:induction false} JoinSplit(s: string)
    ensures Join(Split(s)) == s
  {
    if s != [] {
      var rest := Split(s[1..]);
      JoinSplit(s[1..]);
      if s[0] == '\n' {
        assert Split(s) == [[]] + rest;
        assert Join(Split(s)) == [] + "\n" + Join(rest);
      } else if |rest| == 1 {
        assert Split(s) == [[s[0]] + rest[0]];
      } else {
        assert Split(s) == [[s[0]] + rest[0]] + rest[1..];
        assert Join(rest) == rest[0] + "\n" + Join(rest[1..]);
        assert Join(Split(s)) == [s[0]] + rest[0] + "\n" + Join(rest[1..]);
      }
    }
  }

  /** A newline-free prefix glues onto the first line of what follows it. */
  lemma {:induction false} SplitPrefix(w: string, t: string)
    requires '\n' !in w
    ensures Split(w + t) == [w + Split(t)[0]] + Split(t)[1..]
  {
    if w != [] {
      SplitPrefix(w[1..], t);
      assert (w + t)[1..] == w[1..] + t;
      assert [w[0]] + (w[1..] + Split(t)[0]) == w + Split(t)[0];
    } else {
      assert w + t == t;
      assert w + Split(t)[0] == Split(t)[0];
      assert Split(t) == [Split(t)[0]] + Split(t)[1..];
    }
  }

  /** Joining newline-free lines and splitting again gives the lines back. */
  lemma {:induction false} SplitJoin(lines: seq<string>)
    requires |lines| > 0
    requires forall i :: 0 <= i < |lines| ==> '\n' !in lines[i]
    ensures Split(Join(lines)) == lines
  {
    if |lines| == 1 {
      SplitPrefix(lines[0], []);
      assert lines[0] + [] == lines[0];
    } else {
      var tail := Join(lines[1..]);
      SplitJoin(lines[1..]);
      assert Join(lines) == lines[0] + ("\n" + tail);
      SplitPrefix(lines[0], "\n" + tail);
      assert ("\n" + tail)[1..] == tail;
      assert Split("\n" + tail) == [[]] + Split(tail);
      assert Split(Join(lines)) == [lines[0] + Split("\n" + tail)[0]] + Split("\n" + tail)[1..];
      assert Split("\n" + tail)[0] == [];
      assert Split("\n" + tail)[1..] == lines[1..];
      assert lines[0] + [] == lines[0];
      assert lines == [lines[0]] + lines[1..];
    }
  }
}
