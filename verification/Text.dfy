/** The few string functions the parser and the validity checks rest on. */
module Text {

  /** White space in the Unicode sense, as the trimming functions of the original take it. */
  predicate IsSpace(c: char) {
    c in {'\t', '\n', '\U{0B}', '\U{0C}', '\r', ' ', '\U{85}', '\U{A0}', '\U{1680}',
          '\U{2028}', '\U{2029}', '\U{202F}', '\U{205F}', '\U{3000}'}
    || '\U{2000}' <= c <= '\U{200A}'
  }

  function TrimLeft(s: string): string {
    if s != "" && IsSpace(s[0]) then TrimLeft(s[1..]) else s
  }

  function TrimRight(s: string): string {
    if s != "" && IsSpace(s[|s| - 1]) then TrimRight(s[..|s| - 1]) else s
  }

  function TrimSpace(s: string): string {
    TrimRight(TrimLeft(s))
  }

  predicate Blank(s: string) {
    forall i :: 0 <= i < |s| ==> IsSpace(s[i])
  }

  /** No white space at either end. */
  predicate Trimmed(s: string) {
    s != "" ==> !IsSpace(s[0]) && !IsSpace(s[|s| - 1])
  }

  lemma {:induction false} TrimLeftSplits(s: string) returns (n: nat)
    ensures n <= |s| && TrimLeft(s) == s[n..] && Blank(s[..n])
    ensures n < |s| ==> !IsSpace(s[n])
    decreases |s|
  {
    n := 0;
    if s != "" && IsSpace(s[0]) {
      n := TrimLeftSplits(s[1..]);
      assert s[1..][n..] == s[n + 1..];
      assert s[..n + 1] == [s[0]] + s[1..][..n];
      n := n + 1;
    }
  }

  lemma {:induction false} TrimRightSplits(s: string) returns (n: nat)
    ensures n <= |s| && TrimRight(s) == s[..n] && Blank(s[n..])
    ensures n > 0 ==> !IsSpace(s[n - 1])
    decreases |s|
  {
    n := |s|;
    if s != "" && IsSpace(s[|s| - 1]) {
      var r := s[..|s| - 1];
      n := TrimRightSplits(r);
      assert r[..n] == s[..n];
      assert s[n..] == r[n..] + [s[|s| - 1]];
    }
  }

  /** Trimming cuts off blank ends only, and nothing is left to trim. */
  lemma TrimSpaceSplits(s: string) returns (a: string, b: string)
    ensures s == a + TrimSpace(s) + b && Blank(a) && Blank(b)
    ensures Trimmed(TrimSpace(s))
  {
    var n := TrimLeftSplits(s);
    var rest := s[n..];
    var m := TrimRightSplits(rest);
    a, b := s[..n], rest[m..];
    assert TrimSpace(s) == rest[..m];
    assert rest == rest[..m] + rest[m..];
  }

  lemma TrimSpaceFixes(s: string)
    requires Trimmed(s)
    ensures TrimSpace(s) == s
  {
  }

  lemma {:induction false} TrimLeftDrops(a: string, s: string)
    requires Blank(a)
    ensures TrimLeft(a + s) == TrimLeft(s)
  {
    if a == "" {
      assert a + s == s;
    } else {
      assert (a + s)[1..] == a[1..] + s;
      TrimLeftDrops(a[1..], s);
    }
  }

  lemma {:induction false} TrimRightDrops(s: string, b: string)
    requires Blank(b)
    ensures TrimRight(s + b) == TrimRight(s)
  {
    if b == "" {
      assert s + b == s;
    } else {
      var b' := b[..|b| - 1];
      assert (s + b)[..|s + b| - 1] == s + b';
      TrimRightDrops(s, b');
    }
  }

  /** Blanks around a trimmed string are all that trimming takes away. */
  lemma TrimSpaceTakes(a: string, s: string, b: string)
    requires Blank(a) && Blank(b) && Trimmed(s)
    ensures TrimSpace(a + s + b) == s
  {
    assert a + s + b == a + (s + b);
    TrimLeftDrops(a, s + b);
    TrimRightDrops(s, b);
    if s == "" {
      assert s + b == b + "";
      TrimLeftDrops(b, "");
    }
  }

  /** All the white space there is, on both sides of a letter. */
  lemma TrimExample()
    ensures var w := "\t\n\U{0B}\U{0C}\r \U{85}\U{A0}\U{1680}\U{2000}\U{2001}\U{2002}\U{2003}\U{2004}\U{2005}"
                     + "\U{2006}\U{2007}\U{2008}\U{2009}\U{200A}\U{2028}\U{2029}\U{202F}\U{205F}\U{3000}";
            TrimSpace(w + "x y" + w) == "x y"
  {
    var w := "\t\n\U{0B}\U{0C}\r \U{85}\U{A0}\U{1680}\U{2000}\U{2001}\U{2002}\U{2003}\U{2004}\U{2005}"
             + "\U{2006}\U{2007}\U{2008}\U{2009}\U{200A}\U{2028}\U{2029}\U{202F}\U{205F}\U{3000}";
    assert Blank(w);
    TrimSpaceTakes(w, "x y", w);
  }

  /** Trimming leaves nothing exactly for a blank string, and a second trim changes nothing. */
  lemma TrimSpaceEmpty(s: string)
    ensures TrimSpace(s) == "" <==> Blank(s)
    ensures TrimSpace(TrimSpace(s)) == TrimSpace(s)
  {
    var a, b := TrimSpaceSplits(s);
    TrimSpaceFixes(TrimSpace(s));
    var t := TrimSpace(s);
    if t != "" {
      assert s[|a|] == t[0];
    } else {
      forall i | 0 <= i < |s| ensures IsSpace(s[i]) {
        if i < |a| {
          assert s[i] == a[i];
        } else {
          assert s[i] == b[i - |a|];
        }
      }
    }
  }

  /** A character the string does not contain is not in its trimmed form either. */
  lemma TrimSpaceKeepsOut(s: string, c: char)
    requires c !in s
    ensures c !in TrimSpace(s)
  {
    var a, b := TrimSpaceSplits(s);
    var t := TrimSpace(s);
    forall i | 0 <= i < |t| ensures t[i] != c {
      assert s[|a| + i] == t[i];
    }
  }

  /** Index of the first `c`, or the length when there is none. */
  function Find(s: string, c: char): (n: nat)
    ensures n <= |s| && c !in s[..n]
    ensures n < |s| ==> s[n] == c
  {
    if s == "" || s[0] == c then 0
    else
      var n := 1 + Find(s[1..], c);
      assert s[..n] == [s[0]] + s[1..][..n - 1];
      n
  }

  lemma FindNone(s: string, c: char)
    requires c !in s
    ensures Find(s, c) == |s|
  {
  }

  /** Splitting at every `sep`. */
  function Split(s: string, sep: char): (parts: seq<string>)
    ensures |parts| > 0
    ensures forall i :: 0 <= i < |parts| ==> sep !in parts[i]
    decreases |s|
  {
    var n := Find(s, sep);
    if n == |s| then (assert s[..n] == s; [s]) else [s[..n]] + Split(s[n + 1..], sep)
  }

  lemma FindPrefix(a: string, b: string, c: char)
    requires c !in a
    ensures Find(a + [c] + b, c) == |a|
  {
    var s := a + [c] + b;
    assert s[|a|] == c && forall i :: 0 <= i < |a| ==> s[i] == a[i];
  }

  lemma SplitNone(s: string, sep: char)
    requires sep !in s
    ensures Split(s, sep) == [s]
  {
  }

  lemma SplitCut(s: string, sep: char, head: string, tail: string)
    requires s == head + [sep] + tail && sep !in head
    ensures Split(s, sep) == [head] + Split(tail, sep)
  {
    FindPrefix(head, tail, sep);
    assert s[..|head|] == head && s[|head| + 1..] == tail;
  }

  /** Splitting distributes over a separator in the middle. */
  lemma {:induction false} SplitAt(a: string, b: string, sep: char)
    ensures Split(a + [sep] + b, sep) == Split(a, sep) + Split(b, sep)
    decreases |a|
  {
    hide Split, Find;
    var s, n := a + [sep] + b, Find(a, sep);
    if n == |a| {
      assert a[..n] == a;
      SplitNone(a, sep);
      SplitCut(s, sep, a, b);
    } else {
      var head, tail := a[..n], a[n + 1..];
      assert a == head + [sep] + tail;
      SplitCut(a, sep, head, tail);
      assert s == head + [sep] + (tail + [sep] + b);
      SplitCut(s, sep, head, tail + [sep] + b);
      SplitAt(tail, b, sep);
    }
  }
}
