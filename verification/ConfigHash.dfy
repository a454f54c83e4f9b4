/** The text configHash feeds to its hash: rendered files in key order, the lines of a .conf file
    as a sorted multiset, everything else verbatim.
 */
module ConfigHash {
  import opened Text

  const NUL: char := '\0'

  type Data = map<string, string>

  predicate IsConf(key: string) { |key| >= 5 && key[|key| - 5..] == ".conf" }

  /** Configuration files are those whose name ends in .conf. */
  lemma ConfExactlyWhen(key: string)
    ensures IsConf(key) <==> exists stem :: key == stem + ".conf"
  {
    if IsConf(key) {
      assert key == key[..|key| - 5] + ".conf";
    }
    if stem :| key == stem + ".conf" {
      assert key[|key| - 5..] == ".conf";
    }
  }

  function SortedLines(value: string): seq<string> { Sort(Split(value, '\n'), Leq) }

  function Canonical(key: string, value: string): string {
    if IsConf(key) then Join(SortedLines(value), '\n') else value
  }

  /** What the keys, in this order, contribute. */
  function Feed(keys: seq<string>, data: Data): string
    requires forall i :: 0 <= i < |keys| ==> keys[i] in data
  {
    if keys == [] then ""
    else
      var k := keys[|keys| - 1];
      Feed(keys[..|keys| - 1], data) + (k + [NUL] + Canonical(k, data[k]) + [NUL])
  }

  ghost function Elements(s: set<string>): (r: seq<string>)
    ensures multiset(r) == multiset(s)
  {
    if s == {} then [] else
    var k :| k in s;
    assert s == {k} + (s - {k});
    [k] + Elements(s - {k})
  }

  ghost function SortedKeys(data: Data): (r: seq<string>)
    ensures forall i :: 0 <= i < |r| ==> r[i] in data
    ensures forall k :: k in data ==> k in r
  {
    KeysInOrder(data, Elements(data.Keys));
    Sort(Elements(data.Keys), Leq)
  }

  ghost function HashText(data: Data): string { Feed(SortedKeys(data), data) }

  lemma KeysInOrder(data: Data, order: seq<string>)
    requires multiset(order) == multiset(data.Keys)
    ensures SortedBy(Sort(order, Leq), Leq) && multiset(Sort(order, Leq)) == multiset(data.Keys)
    ensures forall i :: 0 <= i < |Sort(order, Leq)| ==> Sort(order, Leq)[i] in data
    ensures forall k :: k in data ==> k in Sort(order, Leq)
  {
    LeqIsTotalOrder();
    SortSorts(order, Leq);
    var s := Sort(order, Leq);
    forall i | 0 <= i < |s| ensures s[i] in data {
      assert s[i] in multiset(s);
    }
    forall k | k in data ensures k in s {
      assert k in multiset(data.Keys);
      assert k in multiset(s);
    }
  }

  /** configHash up to the digest. The map may enumerate its keys in any order: the text does
      not depend on it. */
  method ConfigText(data: Data, order: seq<string>) returns (text: string)
    requires multiset(order) == multiset(data.Keys)
    ensures text == HashText(data)
  {
    hide Sort, TotalOrder, SortedBy, Elements;
    OrderDoesNotMatter(data, order);
    var keys := Sort(order, Leq);
    text := "";
    for i := 0 to |keys|
      invariant text == Feed(keys[..i], data)
    {
      var value := data[keys[i]];
      if IsConf(keys[i]) {
        var lines := Split(value, '\n');
        lines := Sort(lines, Leq);
        value := Join(lines, '\n');
      }
      assert keys[..i + 1][..i] == keys[..i];
      text := text + (keys[i] + [NUL] + value + [NUL]);
    }
    assert keys[..|keys|] == keys;
  }

  lemma OrderDoesNotMatter(data: Data, order: seq<string>)
    requires multiset(order) == multiset(data.Keys)
    ensures Sort(order, Leq) == SortedKeys(data)
  {
    KeysInOrder(data, order);
    KeysInOrder(data, Elements(data.Keys));
    LeqIsTotalOrder();
    SortedIsUnique(Sort(order, Leq), SortedKeys(data), Leq);
  }

  // ------------------------------------------------------------------ the text is faithful

  predicate NulFree(data: Data) { forall k :: k in data ==> NUL !in k && NUL !in data[k] }

  ghost function Fields(keys: seq<string>, data: Data): seq<string>
    requires forall i :: 0 <= i < |keys| ==> keys[i] in data
  {
    if keys == [] then [] else
    var k := keys[|keys| - 1];
    Fields(keys[..|keys| - 1], data) + [k, Canonical(k, data[k])]
  }

  lemma {:induction false} FieldsAt(keys: seq<string>, data: Data)
    requires forall i :: 0 <= i < |keys| ==> keys[i] in data
    ensures |Fields(keys, data)| == 2 * |keys|
    ensures forall i :: 0 <= i < |keys| ==>
      Fields(keys, data)[2 * i] == keys[i] && Fields(keys, data)[2 * i + 1] == Canonical(keys[i], data[keys[i]])
  {
    if keys != [] { FieldsAt(keys[..|keys| - 1], data); }
  }

  lemma {:induction false} JoinFree(xs: seq<string>, sep: char, c: char)
    requires AllFree(xs, c) && sep != c
    ensures Free(Join(xs, sep), c)
  {
    if |xs| > 1 { JoinFree(xs[1..], sep, c); }
  }

  lemma {:induction false} SplitPiecesFree(s: string, sep: char, c: char)
    requires Free(s, c)
    ensures AllFree(Split(s, sep), c)
  {
    if s != "" { SplitPiecesFree(s[1..], sep, c); }
  }

  lemma LinesInOrder(value: string)
    ensures SortedLines(value) != [] && SortedBy(SortedLines(value), Leq)
    ensures multiset(SortedLines(value)) == multiset(Split(value, '\n'))
    ensures forall i :: 0 <= i < |SortedLines(value)| ==> SortedLines(value)[i] in Split(value, '\n')
  {
    LeqIsTotalOrder();
    SortSorts(Split(value, '\n'), Leq);
    var s := SortedLines(value);
    assert Split(value, '\n')[0] in multiset(s);
    forall i | 0 <= i < |s| ensures s[i] in Split(value, '\n') {
      assert s[i] in multiset(s);
    }
  }

  lemma LinesFree(value: string, c: char)
    requires AllFree(Split(value, '\n'), c)
    ensures AllFree(SortedLines(value), c)
  {
    LinesInOrder(value);
    hide SortedLines, Split;
  }

  lemma CanonicalIsNulFree(key: string, value: string)
    requires Free(value, NUL)
    ensures Free(Canonical(key, value), NUL)
  {
    hide SortedLines;
    if IsConf(key) {
      SplitPiecesFree(value, '\n', NUL);
      LinesFree(value, NUL);
      JoinFree(SortedLines(value), '\n', NUL);
    }
  }

  predicate Terminated(s: string) { s == "" || s[|s| - 1] == NUL }

  /** Cutting the text at its NUL bytes gives the keys and canonical values back. */
  lemma {:induction false} TextParses(keys: seq<string>, data: Data)
    requires NulFree(data) && forall i :: 0 <= i < |keys| ==> keys[i] in data
    ensures Terminated(Feed(keys, data)) && Split(Feed(keys, data), NUL) == Fields(keys, data) + [""]
  {
    if keys != [] {
      var init, k := keys[..|keys| - 1], keys[|keys| - 1];
      TextParses(init, data);
      CanonicalIsNulFree(k, data[k]);
      ChunkParses(k, Canonical(k, data[k]));
      PrependText(Feed(init, data), k + [NUL] + Canonical(k, data[k]) + [NUL]);
      var parsed := Split(Feed(init, data), NUL);
      assert parsed[..|parsed| - 1] == Fields(init, data);
    }
  }

  lemma ChunkParses(k: string, v: string)
    requires Free(k, NUL) && Free(v, NUL)
    ensures Split(k + [NUL] + v + [NUL], NUL) == [k, v, ""]
  {
    SplitFree(k, NUL);
    SplitFree(v, NUL);
    SplitConcat(v, "", NUL);
    SplitConcat(k, v + [NUL], NUL);
    assert v + [NUL] + "" == v + [NUL];
    assert k + [NUL] + v + [NUL] == k + [NUL] + (v + [NUL]);
  }

  /** Text that ends in a separator leaves the cut of what follows untouched. */
  lemma PrependText(a: string, b: string)
    requires Terminated(a)
    ensures Split(a + b, NUL) == Split(a, NUL)[..|Split(a, NUL)| - 1] + Split(b, NUL)
  {
    if a == "" {
      assert a + b == b;
    } else {
      var front := a[..|a| - 1];
      assert a == front + [NUL] + "" && a + b == front + [NUL] + b;
      SplitConcat(front, "", NUL);
      SplitConcat(front, b, NUL);
    }
  }

  ghost predicate SameConfig(a: Data, b: Data) {
    && a.Keys == b.Keys
    && forall k :: k in a ==>
         if IsConf(k) then multiset(Split(a[k], '\n')) == multiset(Split(b[k], '\n')) else a[k] == b[k]
  }

  lemma CanonicalIffSame(key: string, v: string, w: string)
    ensures Canonical(key, v) == Canonical(key, w) <==>
      if IsConf(key) then multiset(Split(v, '\n')) == multiset(Split(w, '\n')) else v == w
  {
    hide SortedLines, Sort, SortedBy, TotalOrder, Join;
    if IsConf(key) {
      LinesDetermined(v);
      LinesDetermined(w);
      if multiset(Split(v, '\n')) == multiset(Split(w, '\n')) {
        LinesEqual(v, w);
      }
    }
  }

  lemma LinesDetermined(v: string)
    ensures Split(Join(SortedLines(v), '\n'), '\n') == SortedLines(v)
    ensures multiset(SortedLines(v)) == multiset(Split(v, '\n'))
  {
    LinesInOrder(v);
    SplitIsFree(v, '\n');
    LinesFree(v, '\n');
    SplitJoin(SortedLines(v), '\n');
  }

  lemma LinesEqual(v: string, w: string)
    requires multiset(Split(v, '\n')) == multiset(Split(w, '\n'))
    ensures SortedLines(v) == SortedLines(w)
  {
    LeqIsTotalOrder();
    LinesInOrder(v);
    LinesInOrder(w);
    SortedIsUnique(SortedLines(v), SortedLines(w), Leq);
  }

  lemma {:induction false} FeedDependsOnCanonical(keys: seq<string>, a: Data, b: Data)
    requires forall i :: 0 <= i < |keys| ==> keys[i] in a && keys[i] in b
    requires forall i :: 0 <= i < |keys| ==> Canonical(keys[i], a[keys[i]]) == Canonical(keys[i], b[keys[i]])
    ensures Feed(keys, a) == Feed(keys, b)
  {
    if keys != [] { FeedDependsOnCanonical(keys[..|keys| - 1], a, b); }
  }

  lemma TextDeterminesConfig(a: Data, b: Data)
    requires NulFree(a) && NulFree(b) && HashText(a) == HashText(b)
    ensures a.Keys == b.Keys && forall k :: k in a ==> Canonical(k, a[k]) == Canonical(k, b[k])
  {
    hide Canonical, Feed, Fields;
    var ka, kb := SortedKeys(a), SortedKeys(b);
    hide SortedKeys;
    TextParses(ka, a);
    TextParses(kb, b);
    DropLast(Fields(ka, a), Fields(kb, b));
    FieldsDetermine(ka, a, kb, b);
    forall k | k in a ensures k in b && Canonical(k, a[k]) == Canonical(k, b[k]) {
      var i :| 0 <= i < |ka| && ka[i] == k;
    }
    assert forall k :: k in b ==> k in kb;
  }

  lemma DropLast(xs: seq<string>, ys: seq<string>)
    requires xs + [""] == ys + [""]
    ensures xs == ys
  {
    assert xs == (xs + [""])[..|xs|] && ys == (ys + [""])[..|ys|];
  }

  lemma FieldsDetermine(ka: seq<string>, a: Data, kb: seq<string>, b: Data)
    requires forall i :: 0 <= i < |ka| ==> ka[i] in a
    requires forall i :: 0 <= i < |kb| ==> kb[i] in b
    requires Fields(ka, a) == Fields(kb, b)
    ensures ka == kb
    ensures forall i :: 0 <= i < |ka| ==> ka[i] in b && Canonical(ka[i], a[ka[i]]) == Canonical(ka[i], b[ka[i]])
  {
    hide Canonical, Fields;
    FieldsAt(ka, a);
    FieldsAt(kb, b);
    var f := Fields(ka, a);
    forall i | 0 <= i < |ka| ensures ka[i] == kb[i] && Canonical(ka[i], a[ka[i]]) == Canonical(kb[i], b[kb[i]]) {
      assert f[2 * i] == ka[i] && f[2 * i] == kb[i];
    }
  }

  /** The text is the same for two NUL-free configurations exactly when they have the same files,
      the same lines in each .conf file whatever their order, and the same bytes elsewhere. */
  lemma TextEqualExactlyWhenSameConfig(a: Data, b: Data)
    requires NulFree(a) && NulFree(b)
    ensures HashText(a) == HashText(b) <==> SameConfig(a, b)
  {
    hide Canonical, Feed;
    if HashText(a) == HashText(b) {
      TextDeterminesConfig(a, b);
      forall k | k in a
        ensures if IsConf(k) then multiset(Split(a[k], '\n')) == multiset(Split(b[k], '\n')) else a[k] == b[k]
      {
        CanonicalIffSame(k, a[k], b[k]);
      }
    }
    if SameConfig(a, b) {
      var keys := SortedKeys(a);
      forall i | 0 <= i < |keys| ensures Canonical(keys[i], a[keys[i]]) == Canonical(keys[i], b[keys[i]]) {
        CanonicalIffSame(keys[i], a[keys[i]], b[keys[i]]);
      }
      FeedDependsOnCanonical(keys, a, b);
    }
  }
}
