/** The parts of Go's strings package the models use. */
module Text {
  import opened Basics

  /** Where `sep` first occurs in `s`. */
  function Find(s: string, sep: string): (r: Option<nat>)
    ensures r.Some? ==> r.value + |sep| <= |s|
  {
    if |s| < |sep| then None
    else if s[..|sep|] == sep then Some(0)
    else if s == [] then None
    else match Find(s[1..], sep) case None => None case Some(i) => Some(i + 1)
  }

  predicate Contains(s: string, sep: string) {
    Find(s, sep).Some?
  }

  /** `strings.Split`. */
  function Split(s: string, sep: string): (parts: seq<string>)
    requires sep != ""
    ensures parts != []
    decreases |s|
  {
    match Find(s, sep)
    case None => [s]
    case Some(i) => [s[..i]] + Split(s[i + |sep|..], sep)
  }

  /** `strings.Join`. */
  function Join(parts: seq<string>, sep: string): string {
    if parts == [] then ""
    else if |parts| == 1 then parts[0]
    else parts[0] + sep + Join(parts[1..], sep)
  }

  predicate HasPrefix(s: string, prefix: string) {
    prefix <= s
  }

  /** `strings.TrimPrefix`. */
  function TrimPrefix(s: string, prefix: string): string {
    if prefix <= s then s[|prefix|..] else s
  }

  lemma {:induction false} FindIs(s: string, sep: string)
    requires Contains(s, sep)
    ensures var i := Find(s, sep).value; s[i..i + |sep|] == sep
  {
    if s[..|sep|] != sep {
      FindIs(s[1..], sep);
      var i := Find(s[1..], sep).value;
      assert s[1..][i..i + |sep|] == s[i + 1..i + 1 + |sep|];
    }
  }

  /** No earlier place holds `sep`. */
  lemma {:induction false} FindIsFirst(s: string, sep: string, at: nat)
    requires at + |sep| <= |s| && s[at..at + |sep|] == sep
    ensures Find(s, sep).Some? && Find(s, sep).value <= at
    decreases |s|
  {
    if s[..|sep|] != sep {
      assert at > 0;
      assert s[1..][at - 1..at - 1 + |sep|] == sep;
      FindIsFirst(s[1..], sep, at - 1);
    }
  }

  /** A single-character separator is found exactly when the character occurs. */
  lemma ContainsChar(s: string, c: char)
    ensures Contains(s, [c]) <==> c in s
  {
    if c in s {
      var i :| 0 <= i < |s| && s[i] == c;
      FindIsFirst(s, [c], i);
    }
    if Contains(s, [c]) {
      FindIs(s, [c]);
      var i := Find(s, [c]).value;
      assert s[i] == s[i..i + 1][0] == c;
    }
  }

  lemma SplitFound(s: string, sep: string, i: nat)
    requires sep != "" && Find(s, sep) == Some(i)
    ensures Split(s, sep) == [s[..i]] + Split(s[i + |sep|..], sep)
  {
  }

  lemma SplitHead(s: string, sep: string)
    requires sep != "" && Contains(s, sep)
    ensures var i := Find(s, sep).value;
            Split(s, sep)[0] == s[..i] && Split(s, sep)[1..] == Split(s[i + |sep|..], sep)
  {
    SplitFound(s, sep, Find(s, sep).value);
  }

  lemma JoinCons(first: string, rest: seq<string>, sep: string)
    requires rest != []
    ensures Join([first] + rest, sep) == first + sep + Join(rest, sep)
  {
    assert ([first] + rest)[1..] == rest;
  }

  /** Joining what was split gives the string back. */
  lemma {:induction false} JoinSplit(s: string, sep: string)
    requires sep != ""
    ensures Join(Split(s, sep), sep) == s
    decreases |s|
  {
    match Find(s, sep) {
      case None =>
      case Some(i) =>
        var rest := s[i + |sep|..];
        FindIs(s, sep);
        JoinSplit(rest, sep);
        JoinCons(s[..i], Split(rest, sep), sep);
        assert s == s[..i] + s[i..i + |sep|] + rest;
    }
  }

  lemma FirstPartFree(s: string, c: char, i: nat)
    requires Find(s, [c]) == Some(i)
    ensures c !in s[..i]
  {
    forall j | 0 <= j < i ensures s[j] != c {
      if s[j] == c {
        assert s[j..j + 1] == [c];
        FindIsFirst(s, [c], j);
      }
    }
  }

  lemma SplitGivesTwo(s: string, c: char, a: string, b: string)
    requires Split(s, [c]) == [a, b]
    ensures c !in a && c !in b && s == a + [c] + b
  {
    SplitHead(s, [c]);
    var i := Find(s, [c]).value;
    var rest := s[i + 1..];
    assert Split(rest, [c]) == [b];
    if Contains(rest, [c]) {
      SplitHead(rest, [c]);
    }
    ContainsChar(b, c);
    FirstPartFree(s, c, i);
    FindIs(s, [c]);
    assert s == s[..i] + s[i..i + 1] + rest;
  }

  lemma TwoAreSplit(s: string, c: char, a: string, b: string)
    requires c !in a && c !in b && s == a + [c] + b
    ensures Split(s, [c]) == [a, b]
  {
    assert s[|a|..|a| + 1] == [c];
    FindIsFirst(s, [c], |a|);
    FindIs(s, [c]);
    var i := Find(s, [c]).value;
    assert s[i..i + 1][0] == s[i];
    assert i == |a|;
    ContainsChar(b, c);
    assert s[..i] == a && s[i + 1..] == b;
    SplitHead(s, [c]);
    assert Split(b, [c]) == [b];
  }

  /** A string splits into two parts at a character exactly when it is two parts without that character around it. */
  lemma SplitInTwo(s: string, c: char, a: string, b: string)
    ensures Split(s, [c]) == [a, b] <==> c !in a && c !in b && s == a + [c] + b
  {
    if Split(s, [c]) == [a, b] {
      SplitGivesTwo(s, c, a, b);
    }
    if c !in a && c !in b && s == a + [c] + b {
      TwoAreSplit(s, c, a, b);
    }
  }
}
