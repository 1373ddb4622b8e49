/** The parser of `k=v` pairs that a user types as the metadata of a secret. */
module Meta {
  import opened Records
  import opened Text

  /** One pair: nothing when it is blank or has a blank key; the value is what follows the first `=`. */
  function ParsePair(text: string): Option<(string, string)> {
    var p := TrimSpace(text);
    var n := Find(p, '=');
    var key := TrimSpace(p[..n]);
    if p == "" || key == "" then None
    else Some((key, if n < |p| then TrimSpace(p[n + 1..]) else ""))
  }

  function ParsePairs(pairs: seq<string>): map<string, string> {
    if pairs == [] then map[]
    else
      var before := ParsePairs(pairs[..|pairs| - 1]);
      match ParsePair(pairs[|pairs| - 1])
      case None => before
      case Some((k, v)) => before[k := v]
  }

  function Parse(input: string): map<string, string> {
    ParsePairs(Split(input, ','))
  }

  /** A metadata map that survives printing: what a parse can return. */
  predicate NormalPair(k: string, v: string) {
    && k != "" && Trimmed(k) && '=' !in k && ',' !in k
    && Trimmed(v) && ',' !in v
  }

  predicate Normal(m: map<string, string>) {
    forall k :: k in m ==> NormalPair(k, m[k])
  }

  lemma ParsePairNormal(text: string)
    requires ',' !in text
    ensures ParsePair(text).Some? ==> NormalPair(ParsePair(text).value.0, ParsePair(text).value.1)
  {
    var p := TrimSpace(text);
    TrimSpaceKeepsOut(text, ',');
    var n := Find(p, '=');
    var _, _ := TrimSpaceSplits(p[..n]);
    TrimSpaceKeepsOut(p[..n], ',');
    TrimSpaceKeepsOut(p[..n], '=');
    if n < |p| {
      var _, _ := TrimSpaceSplits(p[n + 1..]);
      TrimSpaceKeepsOut(p[n + 1..], ',');
    }
  }

  lemma {:induction false} ParsePairsNormal(pairs: seq<string>)
    requires forall i :: 0 <= i < |pairs| ==> ',' !in pairs[i]
    ensures Normal(ParsePairs(pairs))
  {
    if pairs == [] {
    } else {
      ParsePairsNormal(pairs[..|pairs| - 1]);
      ParsePairNormal(pairs[|pairs| - 1]);
    }
  }

  lemma {:induction false} ParsePairsAppend(p: seq<string>, q: seq<string>)
    ensures ParsePairs(p + q) == ParsePairs(p) + ParsePairs(q)
  {
    if q == [] {
      assert p + q == p;
    } else {
      var q' := q[..|q| - 1];
      assert (p + q)[..|p + q| - 1] == p + q';
      ParsePairsAppend(p, q');
    }
  }

  /** A comma joins two inputs into the override of the first's map by the second's. */
  lemma ParseJoin(a: string, b: string)
    ensures Parse(a + "," + b) == Parse(a) + Parse(b)
  {
    SplitAt(a, b, ',');
    ParsePairsAppend(Split(a, ','), Split(b, ','));
  }

  /** Without a comma there is at most one pair. */
  lemma ParseSingle(text: string)
    requires ',' !in text
    ensures Parse(text) == match ParsePair(text) case None => map[] case Some((k, v)) => map[k := v]
  {
    SplitNone(text, ',');
    assert [text][..0] == [];
    assert ParsePairs([]) == map[];
  }

  function Pair(k: string, v: string): string {
    k + "=" + v
  }

  /** The pairs of `m` under the keys of `order`, joined by commas. */
  function Render(m: map<string, string>, order: seq<string>): string
    requires forall i :: 0 <= i < |order| ==> order[i] in m
  {
    if order == [] then ""
    else if |order| == 1 then Pair(order[0], m[order[0]])
    else Pair(order[0], m[order[0]]) + "," + Render(m, order[1..])
  }

  lemma ParsePrintedPair(k: string, v: string)
    requires NormalPair(k, v)
    ensures Parse(Pair(k, v)) == map[k := v]
  {
    var p := Pair(k, v);
    assert p == k + ['='] + v;
    assert p[0] == k[0] && p[|p| - 1] == if v == "" then '=' else v[|v| - 1];
    TrimSpaceFixes(p);
    FindPrefix(k, v, '=');
    assert p[..|k|] == k && p[|k| + 1..] == v;
    TrimSpaceFixes(k);
    TrimSpaceFixes(v);
    assert ParsePair(p) == Some((k, v));
    assert ',' !in p;
    ParseSingle(p);
  }

  /** What a user types without a comma, whatever blanks surround its parts: a pair gives its key and value,
      a key alone an empty value, and no key gives nothing. With `ParseJoin` this settles every input. */
  lemma ParseTyped(k: string, v: string, w1: string, w2: string, w3: string, w4: string)
    requires NormalPair(k, v) && Blank(w1) && Blank(w2) && Blank(w3) && Blank(w4)
    ensures Parse(w1 + k + w2 + "=" + w3 + v + w4) == map[k := v]
    ensures Parse(w1 + k + w2) == map[k := ""]
  {
    ParseTypedPair(k, v, w1, w2, w3, w4);
    var text := w1 + k + w2;
    TrimSpaceTakes(w1, k, w2);
    FindNone(k, '=');
    assert k[..|k|] == k;
    TrimSpaceFixes(k);
    assert ParsePair(text) == Some((k, ""));
    ParseSingle(text);
  }

  lemma ParseTypedPair(k: string, v: string, w1: string, w2: string, w3: string, w4: string)
    requires NormalPair(k, v) && Blank(w1) && Blank(w2) && Blank(w3) && Blank(w4)
    ensures Parse(w1 + k + w2 + "=" + w3 + v + w4) == map[k := v]
  {
    hide ParsePair, Parse, TrimSpace, Find;
    var text, gap, last := w1 + k + w2 + "=" + w3 + v + w4, if v == "" then "" else w3, if v == "" then w3 + w4 else w4;
    var p := k + w2 + "=" + gap + v;
    assert text == w1 + p + last;
    PairInside(k, v, w2, gap);
    PairAround(w1, p, last);
    assert ',' !in text by {
      assert ',' !in w1 && ',' !in w2 && ',' !in w3 && ',' !in w4;
    }
    ParseSingle(text);
  }

  lemma PairAround(a: string, p: string, b: string)
    requires Blank(a) && Blank(b) && Trimmed(p)
    ensures ParsePair(a + p + b) == ParsePair(p)
  {
    hide TrimSpace, Find;
    TrimSpaceTakes(a, p, b);
    TrimSpaceFixes(p);
  }

  lemma PairInside(k: string, v: string, w: string, gap: string)
    requires NormalPair(k, v) && Blank(w) && Blank(gap) && (v == "" ==> gap == "")
    ensures Trimmed(k + w + "=" + gap + v) && ParsePair(k + w + "=" + gap + v) == Some((k, v))
  {
    hide TrimSpace, Find;
    var p := k + w + "=" + gap + v;
    assert p == (k + w) + ['='] + (gap + v);
    assert p[0] == k[0] && p[|p| - 1] == if v == "" then '=' else v[|v| - 1];
    TrimSpaceFixes(p);
    FindPrefix(k + w, gap + v, '=');
    assert p[..|k + w|] == "" + k + w && p[|k + w| + 1..] == gap + v + "";
    TrimSpaceTakes("", k, w);
    TrimSpaceTakes(gap, v, "");
  }

  /** Blanks, or a value without a key, give no pair. */
  lemma ParseNoKey(w: string, rest: string)
    requires Blank(w) && ',' !in rest
    ensures Parse(w) == map[] && Parse(w + "=" + rest) == map[]
  {
    TrimSpaceEmpty(w);
    BlankHasNoPairs(w);
    var text, tail := w + "=" + rest, "=" + rest;
    assert text == w + tail;
    TrimLeftDrops(w, tail);
    var n := TrimRightSplits(tail);
    assert !IsSpace(tail[0]) && n > 0;
    var p := tail[..n];
    FindPrefix("", p[1..], '=');
    assert p == "" + ['='] + p[1..];
    ParseSingle(text);
  }

  function Restrict(m: map<string, string>, order: seq<string>): map<string, string>
    requires forall i :: 0 <= i < |order| ==> order[i] in m
  {
    map k | k in order :: m[k]
  }

  lemma RestrictFirst(m: map<string, string>, order: seq<string>)
    requires order != [] && forall i :: 0 <= i < |order| ==> order[i] in m
    ensures Restrict(m, order) == map[order[0] := m[order[0]]] + Restrict(m, order[1..])
  {
  }

  /** Printing a normal map in any order of its keys and parsing the text gives the map back. */
  lemma {:induction false} ParseRender(m: map<string, string>, order: seq<string>)
    requires Normal(m)
    requires forall i :: 0 <= i < |order| ==> order[i] in m
    ensures Parse(Render(m, order)) == Restrict(m, order)
    decreases |order|
  {
    if order == [] {
      ParseSingle("");
    } else {
      ParsePrintedPair(order[0], m[order[0]]);
      RestrictFirst(m, order);
      if |order| == 1 {
        assert Restrict(m, order[1..]) == map[];
      } else {
        ParseRender(m, order[1..]);
        ParseJoin(Pair(order[0], m[order[0]]), Render(m, order[1..]));
      }
    }
  }

  lemma {:induction false} KeysInSomeOrder(keys: set<string>) returns (order: seq<string>)
    ensures forall k :: k in order <==> k in keys
    decreases |keys|
  {
    if keys == {} {
      order := [];
    } else {
      var k :| k in keys;
      var rest := KeysInSomeOrder(keys - {k});
      order := [k] + rest;
    }
  }

  /** The maps a parse can return are exactly the normal ones. */
  lemma ParseImage(m: map<string, string>)
    ensures Normal(m) <==> exists input :: Parse(input) == m
  {
    if Normal(m) {
      var order := KeysInSomeOrder(m.Keys);
      ParseRender(m, order);
      assert Restrict(m, order) == m;
    }
    if exists input :: Parse(input) == m {
      var input :| Parse(input) == m;
      ParsePairsNormal(Split(input, ','));
    }
  }

  /** In whatever order all the pairs are printed, exactly the normal maps come back. */
  lemma RenderRoundTrip(m: map<string, string>, order: seq<string>)
    requires forall k :: k in order <==> k in m
    ensures Parse(Render(m, order)) == m <==> Normal(m)
  {
    if Normal(m) {
      ParseRender(m, order);
      assert Restrict(m, order) == m;
    }
    if Parse(Render(m, order)) == m {
      ParseImage(m);
    }
  }

  method ParseMeta(input: string) returns (result: map<string, string>)
    ensures result == Parse(input)
    ensures Normal(result)
  {
    hide TrimSpace, Split, Find;
    ParsePairsNormal(Split(input, ','));
    result := map[];
    if TrimSpace(input) == "" {
      BlankHasNoPairs(input);
      return;
    }
    var pairs := Split(input, ',');
    for i := 0 to |pairs|
      invariant result == ParsePairs(pairs[..i])
    {
      assert pairs[..i + 1][..i] == pairs[..i];
      var p := TrimSpace(pairs[i]);
      if p == "" {
        continue;
      }
      var n := Find(p, '=');
      var key := TrimSpace(p[..n]);
      if key == "" {
        continue;
      }
      var val := "";
      if n < |p| {
        val := TrimSpace(p[n + 1..]);
      }
      result := result[key := val];
    }
    assert pairs[..|pairs|] == pairs;
  }

  lemma BlankHasNoPairs(input: string)
    requires TrimSpace(input) == ""
    ensures Parse(input) == map[]
  {
    TrimSpaceEmpty(input);
    var a, b := TrimSpaceSplits(input);
    assert ',' !in a && ',' !in b;
    ParseSingle(input);
  }
}
