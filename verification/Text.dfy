/** Text helpers shared by several modules. */
module Text {
  function LowerLetter(c: char): char {
    if 'A' <= c <= 'Z' then c - 'A' + 'a' else c
  }

  /** Lower case for the ASCII letters. */
  function Lower(s: string): string {
    seq(|s|, i requires 0 <= i < |s| => LowerLetter(s[i]))
  }

  /** The same letter, in either case, or the same character. */
  predicate SameLetter(a: char, b: char) {
    || a == b
    || ('A' <= a <= 'Z' && 'a' <= b <= 'z' && b - 'a' == a - 'A')
    || ('A' <= b <= 'Z' && 'a' <= a <= 'z' && a - 'a' == b - 'A')
  }

  predicate SameUpToCase(s: string, t: string) {
    |s| == |t| && forall i :: 0 <= i < |s| ==> SameLetter(s[i], t[i])
  }

  /** Lower case tells apart exactly what differs by more than case. */
  lemma LowerForgetsCase(s: string, t: string)
    ensures Lower(s) == Lower(t) <==> SameUpToCase(s, t)
  {
    if Lower(s) == Lower(t) {
      assert |Lower(s)| == |s| && |Lower(t)| == |t|;
      forall i | 0 <= i < |s| ensures SameLetter(s[i], t[i]) {
        assert Lower(s)[i] == Lower(t)[i];
      }
    }
    if SameUpToCase(s, t) {
      forall i | 0 <= i < |s| ensures Lower(s)[i] == Lower(t)[i] {
        assert SameLetter(s[i], t[i]);
      }
      assert Lower(s) == Lower(t);
    }
  }

  function Joined(parts: seq<string>, sep: char): string {
    if parts == [] then "" else if |parts| == 1 then parts[0] else parts[0] + ([sep] + Joined(parts[1..], sep))
  }

  lemma ConcatIsAssociative(a: string, b: string, c: string)
    ensures (a + b) + c == a + (b + c)
  {
  }

  /** One more character in the first part. */
  lemma JoinedPrepends(c: char, parts: seq<string>, sep: char)
    requires parts != []
    ensures Joined([[c] + parts[0]] + parts[1..], sep) == [c] + Joined(parts, sep)
  {
    var all := [[c] + parts[0]] + parts[1..];
    assert all[0] == [c] + parts[0] && all[1..] == parts[1..];
    if |parts| > 1 {
      ConcatIsAssociative([c], parts[0], [sep] + Joined(parts[1..], sep));
    }
  }

  /** One more part in front. */
  lemma JoinedStarts(first: string, parts: seq<string>, sep: char)
    ensures Joined([first] + parts, sep) == if parts == [] then first else first + ([sep] + Joined(parts, sep))
  {
    var all := [first] + parts;
    assert all[0] == first && all[1..] == parts;
  }
}
