/** What lower-casing does to the bounded document. One capital, U+0130, becomes two characters, which moves
    everything behind it; scripts are then cut out of the wrong place. */
module LowerCasing {
  import opened Wrappers
  import opened Collections
  import opened Utf8
  import opened ExtractionDocument

  /** Of the other letters all that matters is that one stays one; here those beyond ASCII stay as they are. */
  function Lower(c: CodePoint): Text { if c == 0x130 then [0x69, 0x307] else if 0x41 <= c <= 0x5A then [c + 0x20] else [c] }

  function Lowered(t: Text): Text { if t == [] then [] else Lowered(t[..|t| - 1]) + Lower(t[|t| - 1]) }

  lemma {:induction false} LoweredSize(t: Text)
    ensures |t| <= |Lowered(t)|
    ensures |Lowered(t)| == |t| <==> 0x130 !in t
  {
    if t != [] {
      var n := |t| - 1;
      LoweredSize(t[..n]);
      assert t == t[..n] + [t[n]];
    }
  }

  /** A document without that capital is always kept within the limit. */
  lemma PlainIsBounded(w: Wording, document: Text, limit: nat, isLinkedData: Text -> bool)
    requires Measured(w) && limit >= 1024 && 0x130 !in document
    ensures Size(MarkerOf(w, document, Lowered(document), limit, isLinkedData)) <= limit
  {
    LoweredSize(document);
    MarkerFits(w, document, Lowered(document), limit, isLinkedData);
  }

  // ---- a document with it that is not ----

  function Repeat(t: Text, n: nat): Text { if n == 0 then [] else Repeat(t, n - 1) + t }

  lemma {:induction false} RepeatFront(t: Text, n: nat)
    ensures Repeat(t, n + 1) == t + Repeat(t, n)
  {
    if n > 0 {
      RepeatFront(t, n - 1);
      Associates(t, Repeat(t, n - 1), t);
    } else {
      assert Repeat(t, 1) == [] + t == t + [];
    }
  }

  lemma {:induction false} RepeatLength(t: Text, n: nat)
    requires t != []
    ensures |Repeat(t, n)| >= n
  {
    if n > 0 { RepeatLength(t, n - 1); }
  }

  lemma {:induction false} LoweredConcat(a: Text, b: Text)
    ensures Lowered(a + b) == Lowered(a) + Lowered(b)
  {
    if b == [] {
      assert a + b == a;
    } else {
      var n := |b| - 1;
      var t := a + b;
      assert t[..|t| - 1] == a + b[..n] && t[|t| - 1] == b[n];
      LoweredConcat(a, b[..n]);
      Associates(Lowered(a), Lowered(b[..n]), Lower(b[n]));
    }
  }

  lemma {:induction false} LoweredRepeat(t: Text, n: nat)
    ensures Lowered(Repeat(t, n)) == Repeat(Lowered(t), n)
  {
    if n > 0 {
      LoweredRepeat(t, n - 1);
      LoweredConcat(Repeat(t, n - 1), t);
    }
  }

  // ---- where the scripts are found ----

  lemma {:induction false} Skip(t: Text, c: Text, from: nat, k: nat)
    requires from <= k <= |t| && c != [] && forall i :: from <= i < k ==> t[i] != c[0]
    ensures IndexFrom(t, c, from) == IndexFrom(t, c, k)
    decreases k - from
  {
    if from < k {
      assert t[from..][0] == t[from];
      Skip(t, c, from + 1, k);
    }
  }

  function Tag(w: Wording, attributes: Text): Text { w.open + attributes + w.close }

  /** A script with nothing in it. */
  function Empty(w: Wording, attributes: Text): Text { Tag(w, attributes) + (w.shut + w.close) }

  ghost predicate Plain(w: Wording, attributes: Text) { Measured(w) && w.close[0] !in attributes }

  lemma TagAt(w: Wording, attributes: Text, a: Text, rest: Text)
    requires Plain(w, attributes)
    ensures var t, end := a + Tag(w, attributes) + rest, |a| + |Tag(w, attributes)|;
      TagFrom(t, w.open, w.close, |a|) == Some((|a|, end)) && t[|a|..end] == Tag(w, attributes)
  {
    var t, close := a + Tag(w, attributes) + rest, |a| + 7 + |attributes|;
    assert t[|a|..][..7] == w.open;
    assert IndexFrom(t, w.open, |a|) == |a|;
    assert t[|a| + 7..close] == attributes;
    forall i | |a| + 7 <= i < close
      ensures t[i] != w.close[0]
    {
      assert t[i] == attributes[i - |a| - 7];
    }
    Skip(t, w.close, |a| + 7, close);
    assert t[close..][..1] == w.close;
  }

  lemma ShutAt(w: Wording, a: Text, rest: Text)
    requires Measured(w)
    ensures TagFrom(a + (w.shut + w.close) + rest, w.shut, w.close, |a|) == Some((|a|, |a| + 9))
  {
    var t := a + (w.shut + w.close) + rest;
    assert t[|a|..][..8] == w.shut;
    assert t[|a| + 8..][..1] == w.close;
  }

  lemma ScriptAt(w: Wording, attributes: Text, a: Text, rest: Text)
    requires Plain(w, attributes)
    ensures var t, open, end := a + Empty(w, attributes) + rest, |a| + |Tag(w, attributes)|, |a| + |Empty(w, attributes)|;
      NextScript(w, t, |a|) == Some(Script(|a|, open, end)) && Slice(t, |a|, open) == Tag(w, attributes)
  {
    var t, tag := a + Empty(w, attributes) + rest, Tag(w, attributes);
    assert t == a + tag + (w.shut + w.close + rest);
    assert t == (a + tag) + (w.shut + w.close) + rest;
    TagAt(w, attributes, a, w.shut + w.close + rest);
    ShutAt(w, a + tag, rest);
  }

  /** Scripts that begin at or behind a place, all of them opened by this tag. */
  ghost predicate Behind(scripts: seq<Script>, lowered: Text, place: nat, tag: Text) {
    forall i :: 0 <= i < |scripts| ==> scripts[i].start >= place && Slice(lowered, scripts[i].start, scripts[i].openEnd) == tag
  }

  lemma NextIs(w: Wording, t: Text, cursor: nat, s: Script, place: nat, tag: Text)
    requires Measured(w) && cursor < |t| && NextScript(w, t, cursor) == Some(s) && s.start >= place && Slice(t, s.start, s.openEnd) == tag
    requires Behind(Scripts(w, t, s.end), t, place, tag)
    ensures |Scripts(w, t, cursor)| == 1 + |Scripts(w, t, s.end)| && Behind(Scripts(w, t, cursor), t, place, tag)
  {
    var rest := Scripts(w, t, s.end);
    assert Scripts(w, t, cursor) == [s] + rest;
    forall i | 0 <= i < 1 + |rest|
      ensures ([s] + rest)[i].start >= place && Slice(t, ([s] + rest)[i].start, ([s] + rest)[i].openEnd) == tag
    {
      assert i > 0 ==> ([s] + rest)[i] == rest[i - 1];
    }
  }

  lemma {:induction false} ScriptsBehind(w: Wording, attributes: Text, t: Text, a: Text, n: nat, place: nat)
    requires Plain(w, attributes) && place <= |a| && t == a + Repeat(Empty(w, attributes), n)
    ensures |Scripts(w, t, |a|)| == n && Behind(Scripts(w, t, |a|), t, place, Tag(w, attributes))
    decreases n
  {
    var e := Empty(w, attributes);
    if n > 0 {
      var rest := Repeat(e, n - 1);
      RepeatFront(e, n - 1);
      Associates(a, e, rest);
      assert t == a + e + rest;
      ScriptAt(w, attributes, a, rest);
      ScriptsBehind(w, attributes, t, a + e, n - 1, place);
      NextIs(w, t, |a|, NextScript(w, t, |a|).value, place, Tag(w, attributes));
    }
  }

  /** Nothing is found in a stretch without the character that opens a tag. */
  lemma ScriptsFromStart(w: Wording, t: Text, k: nat)
    requires Measured(w) && 0 < k < |t| && w.open[0] !in t[..k] && NextScript(w, t, k).Some?
    ensures Scripts(w, t, 0) == Scripts(w, t, k)
  {
    forall i | 0 <= i < k
      ensures t[i] != w.open[0]
    {
      assert t[i] == t[..k][i];
    }
    Skip(t, w.open, 0, k);
    assert TagFrom(t, w.open, w.close, 0) == TagFrom(t, w.open, w.close, k);
    assert NextScript(w, t, 0) == NextScript(w, t, k);
  }

  /** Scripts that begin behind the end of the document yield empty fragments, all of which fit. */
  lemma {:induction false} EmptyFragments(document: Text, lowered: Text, scripts: seq<Script>, maxBytes: nat, isLinkedData: Text -> bool, tag: Text)
    requires Behind(scripts, lowered, |document|, tag) && isLinkedData(tag)
    ensures var fs := Retained(document, lowered, scripts, maxBytes, isLinkedData);
      |fs| == |scripts| && Sizes(fs) == 0 && forall f :: f in fs ==> f == []
  {
    if scripts != [] {
      var init, last := scripts[..|scripts| - 1], scripts[|scripts| - 1];
      assert scripts == init + [last];
      assert Behind(init, lowered, |document|, tag);
      assert last.start >= |document| && Slice(lowered, last.start, last.openEnd) == tag;
      EmptyFragments(document, lowered, init, maxBytes, isLinkedData, tag);
      RetainedSnoc(document, lowered, init, last, maxBytes, isLinkedData);
      assert Slice(document, last.start, last.end) == [];
      SizesSnoc(Retained(document, lowered, init, maxBytes, isLinkedData), []);
    }
  }

  lemma {:induction false} JoinedNewlines(fs: seq<Text>)
    requires fs != [] && forall f :: f in fs ==> f == []
    ensures |Joined(fs)| == |fs| - 1
  {
    var n := |fs| - 1;
    assert fs[n] in fs;
    if n > 0 {
      assert forall f :: f in fs[..n] ==> f in fs;
      JoinedNewlines(fs[..n]);
    }
  }

  /** Capitals that grow, and behind them more empty scripts than the limit has bytes. */
  function Shifted(w: Wording, attributes: Text, limit: nat): Text {
    var scripts := Repeat(Empty(w, attributes), limit + 2);
    Repeat([0x130], |scripts|) + scripts
  }

  lemma {:induction false} RepeatOf(t: Text, n: nat, k: nat)
    requires |t| == k
    ensures |Repeat(t, n)| == k * n && forall c :: c in Repeat(t, n) ==> c in t
  {
    if n > 0 {
      RepeatOf(t, n - 1, k);
      assert k * n == k * (n - 1) + k;
    }
  }

  lemma DotLowered()
    ensures Lowered([0x130]) == [0x69, 0x307]
  {
    assert [0x130][..0] == [];
  }

  /** Lower-casing doubles a stretch of those capitals. */
  lemma Dots(n: nat)
    ensures |Repeat([0x130], n)| == n && |Repeat([0x69, 0x307], n)| == 2 * n
    ensures Lowered(Repeat([0x130], n)) == Repeat([0x69, 0x307], n)
  {
    RepeatOf([0x130], n, 1);
    RepeatOf([0x69, 0x307], n, 2);
    LoweredRepeat([0x130], n);
    DotLowered();
  }

  /** What lower-casing makes of it: as many characters again in front as all the scripts have. */
  lemma ShiftedLowered(w: Wording, attributes: Text, limit: nat)
    requires Lowered(Empty(w, attributes)) == Empty(w, attributes)
    ensures var rest := Repeat(Empty(w, attributes), limit + 2); var a := Repeat([0x69, 0x307], |rest|);
      Lowered(Shifted(w, attributes, limit)) == a + rest && |a| == |Shifted(w, attributes, limit)|
  {
    var rest := Repeat(Empty(w, attributes), limit + 2);
    Dots(|rest|);
    LoweredConcat(Repeat([0x130], |rest|), rest);
    LoweredRepeat(Empty(w, attributes), limit + 2);
  }

  lemma DotsMiss(c: CodePoint, n: nat)
    requires c !in [0x69, 0x307] && n > 0
    ensures c !in Repeat([0x69, 0x307], n) && Repeat([0x69, 0x307], n) != []
  {
    RepeatOf([0x69, 0x307], n, 2);
  }

  lemma ScriptsAfter(w: Wording, attributes: Text, t: Text, a: Text, n: nat)
    requires Plain(w, attributes) && a != [] && w.open[0] !in a && n > 0 && t == a + Repeat(Empty(w, attributes), n)
    ensures |Scripts(w, t, 0)| == n && Behind(Scripts(w, t, 0), t, |a|, Tag(w, attributes))
  {
    ScriptsBehind(w, attributes, t, a, n, |a|);
    RepeatLength(Empty(w, attributes), n);
    assert t[..|a|] == a;
    ScriptsFromStart(w, t, |a|);
  }

  lemma ShiftedScripts(w: Wording, attributes: Text, limit: nat)
    requires Plain(w, attributes) && Lowered(Empty(w, attributes)) == Empty(w, attributes) && w.open[0] !in [0x69, 0x307]
    ensures var document := Shifted(w, attributes, limit); var scripts := Scripts(w, Lowered(document), 0);
      |scripts| == limit + 2 && Behind(scripts, Lowered(document), |document|, Tag(w, attributes))
  {
    var rest := Repeat(Empty(w, attributes), limit + 2);
    ShiftedLowered(w, attributes, limit);
    RepeatLength(Empty(w, attributes), limit + 2);
    DotsMiss(w.open[0], |rest|);
    ScriptsAfter(w, attributes, Lowered(Shifted(w, attributes, limit)), Repeat([0x69, 0x307], |rest|), limit + 2);
  }

  lemma MarkerAtLeast(w: Wording, structured: Text)
    requires structured != []
    ensures Size(Marker(w, structured)) >= |structured|
  {
    SizeAtLeast(Marker(w, structured));
  }

  /** For every limit there is a document with that capital whose marker alone is over the limit. */
  lemma ShiftedIsUnbounded(w: Wording, attributes: Text, limit: nat, isLinkedData: Text -> bool)
    requires Plain(w, attributes) && Lowered(Empty(w, attributes)) == Empty(w, attributes) && w.open[0] !in [0x69, 0x307]
    requires isLinkedData(Tag(w, attributes))
    ensures var document := Shifted(w, attributes, limit);
      Size(document) > limit && Size(MarkerOf(w, document, Lowered(document), limit, isLinkedData)) > limit
  {
    var document := Shifted(w, attributes, limit);
    var scripts := Scripts(w, Lowered(document), 0);
    ShiftedScripts(w, attributes, limit);
    EmptyFragments(document, Lowered(document), scripts, 2 * limit / 5, isLinkedData, Tag(w, attributes));
    var fs := Retained(document, Lowered(document), scripts, 2 * limit / 5, isLinkedData);
    JoinedNewlines(fs);
    MarkerAtLeast(w, Joined(fs));
    RepeatLength(Empty(w, attributes), limit + 2);
    SizeAtLeast(document);
  }

  // ---- the wording in use ----

  predicate Small(c: CodePoint) { c < 0x80 && !(0x41 <= c <= 0x5A) }

  lemma {:induction false} SmallStays(t: Text)
    requires forall i :: 0 <= i < |t| ==> Small(t[i])
    ensures Lowered(t) == t
  {
    if t != [] {
      SmallStays(t[..|t| - 1]);
      assert Small(t[|t| - 1]);
    }
  }

  lemma EmptyLowered(w: Wording, attributes: Text)
    requires Lowered(w.open) == w.open && Lowered(attributes) == attributes && Lowered(w.close) == w.close && Lowered(w.shut) == w.shut
    ensures Lowered(Empty(w, attributes)) == Empty(w, attributes)
  {
    LoweredConcat(w.open, attributes);
    LoweredConcat(w.open + attributes, w.close);
    LoweredConcat(w.shut, w.close);
    LoweredConcat(Tag(w, attributes), w.shut + w.close);
  }

  /** A wording that lower-casing leaves alone, which begins tags with something other than a lower-cased capital. */
  ghost predicate LowerCase(w: Wording) {
    && Measured(w) && w.open[0] !in [0x69, 0x307]
    && Lowered(w.open) == w.open && Lowered(w.shut) == w.shut && Lowered(w.close) == w.close
  }

  lemma HtmlIsLowerCase()
    ensures LowerCase(Html())
  {
    SmallStays(Html().open);
    SmallStays(Html().shut);
    SmallStays(Html().close);
  }

  lemma ShiftedHasCapital(w: Wording, attributes: Text, limit: nat)
    requires Measured(w)
    ensures 0x130 in Shifted(w, attributes, limit)
  {
    RepeatLength(Empty(w, attributes), limit + 2);
    var n := |Repeat(Empty(w, attributes), limit + 2)|;
    assert Repeat([0x130], n) == Repeat([0x130], n - 1) + [0x130];
    assert Repeat([0x130], n)[|Repeat([0x130], n)| - 1] == 0x130;
  }

  /** For every limit, and every way to write the attributes of structured data, a document whose bounded form
      is over the limit. With PlainIsBounded this says which documents are at risk. */
  lemma TheBoundCanFail(w: Wording, limit: nat, attributes: Text, isLinkedData: Text -> bool)
    requires LowerCase(w) && w.close[0] !in attributes && (forall i :: 0 <= i < |attributes| ==> Small(attributes[i]))
    requires isLinkedData(Tag(w, attributes))
    ensures var document := Shifted(w, attributes, limit);
      0x130 in document && Size(document) > limit && Size(MarkerOf(w, document, Lowered(document), limit, isLinkedData)) > limit
  {
    SmallStays(attributes);
    EmptyLowered(w, attributes);
    ShiftedIsUnbounded(w, attributes, limit, isLinkedData);
    ShiftedHasCapital(w, attributes, limit);
  }
}
