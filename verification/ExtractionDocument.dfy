/** The byte-bounded document that extraction reads: head and tail of a long page, with its structured
    product data kept in between. Scripts are looked for in the lower-cased document and cut out of the document
    itself, so the two go together only while lower-casing keeps the length; `lowered` is any text. */
module ExtractionDocument {
  import opened Collections
  import opened Wrappers
  import opened Utf8

  /** ASCII text. */
  function Ascii(s: string): (r: Text)
    ensures |r| == |s|
    ensures forall i :: 0 <= i < |s| ==> r[i] == if (s[i] as int) < 0x80 then s[i] as int else 0x3F
  {
    seq(|s|, i requires 0 <= i < |s| => if (s[i] as int) < 0x80 then s[i] as int else 0x3F)
  }

  lemma {:induction false} AsciiSize(t: Text)
    requires forall i :: 0 <= i < |t| ==> t[i] < 0x80
    ensures Size(t) == |t|
  {
    if t != [] {
      AsciiSize(t[..|t| - 1]);
      EncodeLast(t[..|t| - 1], t[|t| - 1]);
      assert t == t[..|t| - 1] + [t[|t| - 1]];
    }
  }

  /** The texts that the cutter looks for, and those that it writes. */
  datatype Wording = Wording(open: Text, shut: Text, close: Text, omitted: Text, retained: Text)

  /** All that is used of them: how long they are. */
  predicate Measured(w: Wording) {
    |w.open| == 7 && |w.shut| == 8 && |w.close| == 1 && Size(w.omitted) + Size(w.retained) <= 200
  }

  /** A slice: positions past the end are taken back to it. */
  function Slice(t: Text, from: nat, to: nat): Text {
    if to <= |t| && from <= to then t[from..to] else if from < |t| < to then t[from..] else []
  }

  function Size(t: Text): nat { |EncodeAll(t)| }

  // ---- structured data ----

  /** Where c first occurs at or after a position, or -1. */
  function IndexFrom(t: Text, c: Text, from: nat): (at: int)
    ensures at == -1 || from <= at <= |t| - |c|
    decreases |t| - from
  {
    if from > |t| then -1 else if c <= t[from..] then from else IndexFrom(t, c, from + 1)
  }

  method IndexOf(t: Text, c: Text, from: nat) returns (at: int)
    ensures at == IndexFrom(t, c, from)
  {
    at := from;
    while at <= |t|
      invariant from <= at && IndexFrom(t, c, from) == IndexFrom(t, c, at)
    {
      if c <= t[at..] { return; }
      at := at + 1;
    }
    at := -1;
  }

  /** A script: where it opens, where its opening tag ends and where it closes. */
  datatype Script = Script(start: nat, openEnd: nat, end: nat)

  /** A tag that begins with the given text: where it starts and ends. */
  function TagFrom(lower: Text, name: Text, close: Text, from: nat): (r: Option<(nat, nat)>)
    requires |close| == 1
    ensures r.Some? ==> from <= r.value.0 && r.value.0 + |name| < r.value.1 <= |lower|
  {
    var start := IndexFrom(lower, name, from);
    if start < 0 then None
    else
      var end := IndexFrom(lower, close, start + |name|);
      if end < 0 then None else Some((start, end + 1))
  }

  function NextScript(w: Wording, lower: Text, cursor: nat): (r: Option<Script>)
    requires Measured(w)
    ensures r.Some? ==> cursor <= r.value.start && r.value.start + SHORTEST <= r.value.end <= |lower|
    ensures r.Some? ==> r.value.start <= r.value.openEnd <= r.value.end
  {
    var open := TagFrom(lower, w.open, w.close, cursor);
    if open.None? then None
    else
      var shut := TagFrom(lower, w.shut, w.close, open.value.1);
      if shut.None? then None else Some(Script(open.value.0, open.value.1, shut.value.1))
  }

  /** The scripts from a position on. */
  function Scripts(w: Wording, lower: Text, cursor: nat): seq<Script>
    requires Measured(w)
    decreases |lower| - cursor
  {
    if cursor >= |lower| || NextScript(w, lower, cursor).None? then []
    else [NextScript(w, lower, cursor).value] + Scripts(w, lower, NextScript(w, lower, cursor).value.end)
  }

  function Sizes(fs: seq<Text>): nat { if fs == [] then 0 else Sizes(fs[..|fs| - 1]) + Size(fs[|fs| - 1]) }

  function Joined(fs: seq<Text>): Text {
    if fs == [] then []
    else if |fs| == 1 then fs[0]
    else Joined(fs[..|fs| - 1]) + [0x0A] + fs[|fs| - 1]
  }

  /** The shortest text that opens and closes a script. */
  const SHORTEST := 17

  predicate InOrder(scripts: seq<Script>, from: nat, end: nat) {
    if scripts == [] then from <= end
    else
      var last := scripts[|scripts| - 1];
      last.start <= last.openEnd <= end && last.start + SHORTEST <= last.end <= end && InOrder(scripts[..|scripts| - 1], from, last.start)
  }

  /** Of the scripts, those that hold structured data, as long as they fit; one that does not fit is passed over. */
  function Retained(document: Text, lowered: Text, scripts: seq<Script>, maxBytes: nat, isLinkedData: Text -> bool): (r: seq<Text>)
    ensures Sizes(r) <= maxBytes
  {
    if scripts == [] then []
    else
      var last := scripts[|scripts| - 1];
      var kept := Retained(document, lowered, scripts[..|scripts| - 1], maxBytes, isLinkedData);
      var fragment := Slice(document, last.start, last.end);
      if isLinkedData(Slice(lowered, last.start, last.openEnd)) && Sizes(kept) + Size(fragment) <= maxBytes
      then
        assert (kept + [fragment])[..|kept|] == kept;
        kept + [fragment]
      else kept
  }

  lemma InOrderLater(scripts: seq<Script>, from: nat, end: nat, later: nat)
    requires InOrder(scripts, from, end) && end <= later
    ensures InOrder(scripts, from, later)
  {
  }

  lemma InOrderSnoc(scripts: seq<Script>, from: nat, s: Script, end: nat)
    requires InOrder(scripts, from, s.start) && s.start <= s.openEnd <= end && s.start + SHORTEST <= s.end <= end
    ensures InOrder(scripts + [s], from, end)
  {
  }

  method FindTag(lower: Text, name: Text, close: Text, from: nat) returns (r: Option<(nat, nat)>)
    requires |close| == 1
    ensures r == TagFrom(lower, name, close, from)
  {
    var start := IndexOf(lower, name, from);
    if start < 0 { return None; }
    var end := IndexOf(lower, close, start + |name|);
    if end < 0 { return None; }
    r := Some((start, end + 1));
  }

  method FindScript(w: Wording, lower: Text, cursor: nat) returns (s: Option<Script>)
    requires Measured(w)
    ensures s == NextScript(w, lower, cursor)
  {
    var open := FindTag(lower, w.open, w.close, cursor);
    if open.None? { return None; }
    var shut := FindTag(lower, w.shut, w.close, open.value.1);
    if shut.None? { return None; }
    s := Some(Script(open.value.0, open.value.1, shut.value.1));
  }

  /** The loop over the scripts of a document. */
  method StructuredFragments(w: Wording, document: Text, lowered: Text, maxBytes: nat, isLinkedData: Text -> bool)
    returns (fragments: seq<Text>)
    requires Measured(w)
    ensures InOrder(Scripts(w, lowered, 0), 0, |lowered|)
    ensures fragments == Retained(document, lowered, Scripts(w, lowered, 0), maxBytes, isLinkedData)
  {
    fragments := [];
    var used, cursor := 0, 0;
    ghost var done: seq<Script> := [];
    while cursor < |lowered|
      invariant cursor <= |lowered| && Scripts(w, lowered, 0) == done + Scripts(w, lowered, cursor)
      invariant InOrder(done, 0, cursor)
      invariant fragments == Retained(document, lowered, done, maxBytes, isLinkedData) && used == Sizes(fragments)
      decreases |lowered| - cursor
    {
      var found := FindScript(w, lowered, cursor);
      if found.None? { break; }
      var s := found.value;
      OneMoreScript(w, lowered, done, cursor, s);
      RetainedSnoc(document, lowered, done, s, maxBytes, isLinkedData);
      done := done + [s];
      cursor := s.end;
      fragments, used := KeepFragment(document, lowered, s, fragments, used, maxBytes, isLinkedData);
    }
    assert done + [] == done;
    InOrderLater(done, 0, cursor, |lowered|);
  }

  /** A script with structured data is kept if it still fits. */
  method KeepFragment(document: Text, lowered: Text, s: Script, fragments: seq<Text>, used: nat, maxBytes: nat, isLinkedData: Text -> bool)
    returns (kept: seq<Text>, total: nat)
    requires used == Sizes(fragments)
    ensures total == Sizes(kept)
    ensures var fragment := Slice(document, s.start, s.end);
      kept == if isLinkedData(Slice(lowered, s.start, s.openEnd)) && Sizes(fragments) + Size(fragment) <= maxBytes
              then fragments + [fragment] else fragments
  {
    if !isLinkedData(Slice(lowered, s.start, s.openEnd)) { return fragments, used; }
    var fragment := Slice(document, s.start, s.end);
    var size := Size(fragment);
    if used + size > maxBytes { return fragments, used; }
    SizesSnoc(fragments, fragment);
    kept, total := fragments + [fragment], used + size;
  }

  lemma SizesSnoc(fs: seq<Text>, f: Text)
    ensures Sizes(fs + [f]) == Sizes(fs) + Size(f)
  {
  }

  lemma OneMoreScript(w: Wording, lowered: Text, done: seq<Script>, cursor: nat, s: Script)
    requires InOrder(done, 0, cursor) && cursor < |lowered| && Measured(w) && NextScript(w, lowered, cursor) == Some(s)
    ensures InOrder(done + [s], 0, s.end)
    ensures done + Scripts(w, lowered, cursor) == done + [s] + Scripts(w, lowered, s.end)
  {
    InOrderLater(done, 0, cursor, s.start);
    InOrderSnoc(done, 0, s, s.end);
    Associates(done, [s], Scripts(w, lowered, s.end));
  }

  lemma RetainedSnoc(document: Text, lowered: Text, done: seq<Script>, s: Script, maxBytes: nat, isLinkedData: Text -> bool)
    ensures var kept, fragment := Retained(document, lowered, done, maxBytes, isLinkedData), Slice(document, s.start, s.end);
      Retained(document, lowered, done + [s], maxBytes, isLinkedData) ==
        if isLinkedData(Slice(lowered, s.start, s.openEnd)) && Sizes(kept) + Size(fragment) <= maxBytes
        then kept + [fragment] else kept
  {
    assert (done + [s])[..|done|] == done;
  }

  lemma {:induction false} SizeAtLeast(t: Text)
    ensures |t| <= Size(t)
  {
    if t != [] { SizeAtLeast(t[..|t| - 1]); }
  }

  /** Every fragment pays for the newline that joins it. */
  lemma {:induction false} JoinedSize(fs: seq<Text>)
    requires forall f :: f in fs ==> |f| >= SHORTEST
    ensures SHORTEST * |fs| <= Sizes(fs)
    ensures if fs == [] then Size(Joined(fs)) == 0 else Size(Joined(fs)) + 1 <= Sizes(fs) + |fs|
  {
    if fs != [] {
      var init, last := fs[..|fs| - 1], fs[|fs| - 1];
      assert forall f :: f in init ==> f in fs;
      assert last in fs;
      JoinedSize(init);
      SizeAtLeast(last);
      if |fs| > 1 {
        EncodeConcat(Joined(init) + [0x0A], last);
        EncodeLast(Joined(init), 0x0A);
      }
    }
  }

  lemma {:induction false} RetainedAreLong(document: Text, lowered: Text, scripts: seq<Script>, maxBytes: nat, isLinkedData: Text -> bool)
    requires InOrder(scripts, 0, |document|)
    ensures forall f :: f in Retained(document, lowered, scripts, maxBytes, isLinkedData) ==> |f| >= SHORTEST
  {
    if scripts != [] {
      var init, last := scripts[..|scripts| - 1], scripts[|scripts| - 1];
      assert scripts == init + [last];
      InOrderLater(init, 0, last.start, |document|);
      RetainedAreLong(document, lowered, init, maxBytes, isLinkedData);
      RetainedSnoc(document, lowered, init, last, maxBytes, isLinkedData);
      assert |Slice(document, last.start, last.end)| >= SHORTEST;
    }
  }

  /** A structured script is left out only if it does not fit beside those that are kept. */
  lemma {:induction false} LeftOutIsTooLarge(document: Text, lowered: Text, scripts: seq<Script>, maxBytes: nat, isLinkedData: Text -> bool, i: nat)
    requires i < |scripts| && isLinkedData(Slice(lowered, scripts[i].start, scripts[i].openEnd))
    ensures var fs, f := Retained(document, lowered, scripts, maxBytes, isLinkedData), Slice(document, scripts[i].start, scripts[i].end);
      f in fs || Sizes(fs) + Size(f) > maxBytes
  {
    var init, last := scripts[..|scripts| - 1], scripts[|scripts| - 1];
    var kept := Retained(document, lowered, init, maxBytes, isLinkedData);
    assert scripts == init + [last];
    RetainedSnoc(document, lowered, init, last, maxBytes, isLinkedData);
    SizesSnoc(kept, Slice(document, last.start, last.end));
    if i < |init| {
      assert init[i] == scripts[i];
      LeftOutIsTooLarge(document, lowered, init, maxBytes, isLinkedData, i);
    }
  }

  ghost predicate IsKept(document: Text, lowered: Text, scripts: seq<Script>, isLinkedData: Text -> bool, i: nat, f: Text) {
    i < |scripts| && isLinkedData(Slice(lowered, scripts[i].start, scripts[i].openEnd)) && f == Slice(document, scripts[i].start, scripts[i].end)
  }

  /** And what is kept are structured scripts of the document, in their order. */
  lemma {:induction false} KeptAreScripts(document: Text, lowered: Text, scripts: seq<Script>, maxBytes: nat, isLinkedData: Text -> bool)
    returns (at: seq<nat>)
    ensures var fs := Retained(document, lowered, scripts, maxBytes, isLinkedData);
      && |at| == |fs| && (forall x, y :: 0 <= x < y < |at| ==> at[x] < at[y])
      && forall x :: 0 <= x < |at| ==> IsKept(document, lowered, scripts, isLinkedData, at[x], fs[x])
  {
    if scripts == [] {
      at := [];
    } else {
      var init, last := scripts[..|scripts| - 1], scripts[|scripts| - 1];
      assert scripts == init + [last];
      at := KeptAreScripts(document, lowered, init, maxBytes, isLinkedData);
      RetainedSnoc(document, lowered, init, last, maxBytes, isLinkedData);
      if |Retained(document, lowered, scripts, maxBytes, isLinkedData)| > |at| { at := at + [|init|]; }
    }
  }

  /** The text between head and tail. */
  function Marker(w: Wording, structured: Text): Text {
    if structured == [] then w.omitted + [0x0A] else w.omitted + (w.retained + structured + [0x0A]) + [0x0A]
  }

  lemma MarkerSize(w: Wording, structured: Text)
    ensures Size(Marker(w, structured)) <= Size(w.omitted) + Size(w.retained) + 2 + Size(structured)
  {
    EncodeLast(w.omitted, 0x0A);
    EncodeConcat(w.retained, structured);
    EncodeLast(w.retained + structured, 0x0A);
    EncodeConcat(w.omitted, w.retained + structured + [0x0A]);
    EncodeLast(w.omitted + (w.retained + structured + [0x0A]), 0x0A);
  }

  function MarkerOf(w: Wording, document: Text, lowered: Text, limit: nat, isLinkedData: Text -> bool): Text
    requires Measured(w)
  {
    Marker(w, Joined(Retained(document, lowered, Scripts(w, lowered, 0), 2 * limit / 5, isLinkedData)))
  }

  lemma Room(limit: nat, sizes: nat, count: nat, joined: nat)
    requires limit >= 1024 && SHORTEST * count <= sizes <= 2 * limit / 5
    requires if count == 0 then joined == 0 else joined + 1 <= sizes + count
    ensures 202 + joined <= limit
  {
  }

  /** While lower-casing keeps the length, the markers, the retained fragments and the newlines between them
      leave room within the limit. */
  lemma MarkerFits(w: Wording, document: Text, lowered: Text, limit: nat, isLinkedData: Text -> bool)
    requires limit >= 1024 && Measured(w) && |lowered| == |document|
    ensures Size(MarkerOf(w, document, lowered, limit, isLinkedData)) <= limit
  {
    var scripts := Scripts(w, lowered, 0);
    var fs := Retained(document, lowered, scripts, 2 * limit / 5, isLinkedData);
    ScriptsInOrder(w, lowered, [], 0);
    assert [] + scripts == scripts;
    RetainedAreLong(document, lowered, scripts, 2 * limit / 5, isLinkedData);
    JoinedSize(fs);
    MarkerSize(w, Joined(fs));
    Room(limit, Sizes(fs), |fs|, Size(Joined(fs)));
  }

  lemma {:induction false} ScriptsInOrder(w: Wording, lowered: Text, done: seq<Script>, cursor: nat)
    requires Measured(w) && cursor <= |lowered| && InOrder(done, 0, cursor)
    ensures InOrder(done + Scripts(w, lowered, cursor), 0, |lowered|)
    decreases |lowered| - cursor
  {
    if cursor >= |lowered| || NextScript(w, lowered, cursor).None? {
      assert done + [] == done;
      InOrderLater(done, 0, cursor, |lowered|);
    } else {
      var s := NextScript(w, lowered, cursor).value;
      OneMoreScript(w, lowered, done, cursor, s);
      ScriptsInOrder(w, lowered, done + [s], s.end);
    }
  }

  // ---- the document ----

  /** Decoding drops a byte order mark in front. */
  function Unmarked(t: Text): Text { if t != [] && t[0] == 0xFEFF then t[1..] else t }

  /** The first i characters and those from j on, around the marker: as many whole characters as fit in the
      shares of head and tail, three quarters and one quarter of what the marker leaves. */
  ghost predicate CutAt(document: Text, marker: Text, limit: nat, result: Text, i: nat, j: nat) {
    var available := limit - Size(marker);
    var head, bytes := 3 * available / 4, Size(document);
    && i <= j <= |document| && result == Unmarked(document[..i]) + marker + Unmarked(document[j..])
    && Length(document, i) <= head && (i < |document| ==> head < Length(document, i + 1))
    && bytes - (available - head) <= Length(document, j) && (j > 0 ==> Length(document, j - 1) < bytes - (available - head))
  }

  lemma UnmarkedSize(t: Text)
    ensures Size(Unmarked(t)) <= Size(t)
  {
    if t != [] && t[0] == 0xFEFF {
      EncodeFirst(t[0], t[1..]);
      assert t == [t[0]] + t[1..];
    }
  }

  lemma ThreeParts(a: Text, b: Text, c: Text)
    ensures Size(a + b + c) == Size(a) + Size(b) + Size(c)
  {
    EncodeConcat(a, b);
    EncodeConcat(a + b, c);
  }

  /** A document cut like this is within the limit. */
  lemma CutFits(document: Text, marker: Text, limit: nat, result: Text, i: nat, j: nat)
    requires Size(marker) <= limit && CutAt(document, marker, limit, result, i, j)
    ensures Size(result) <= limit
  {
    CutInTwo(document, j);
    UnmarkedSize(document[..i]);
    UnmarkedSize(document[j..]);
    ThreeParts(Unmarked(document[..i]), marker, Unmarked(document[j..]));
  }

  /** Back to the start of the character that a position is in. */
  method HeadEnd(document: Text, bytes: Bytes, from: nat) returns (end: nat, ghost i: nat)
    requires bytes == EncodeAll(document) && from < |bytes|
    ensures i <= |document| && end == Length(document, i) <= from && (i < |document| ==> from < Length(document, i + 1))
  {
    end := from;
    while end > 0 && Continuation(bytes[end])
      invariant end <= from && forall k :: end < k <= from ==> Continuation(bytes[k])
    {
      end := end - 1;
    }
    if end == 0 { i := 0; } else { i := BoundaryIsCut(document, end); }
    if i < |document| {
      LengthGrows(document, i, i + 1);
      CutIsBoundary(document, i + 1);
    }
  }

  /** On to the start of the next character. */
  method TailStart(document: Text, bytes: Bytes, from: nat) returns (start: nat, ghost j: nat)
    requires bytes == EncodeAll(document) && from <= |bytes|
    ensures j <= |document| && start == Length(document, j) >= from && (j > 0 ==> Length(document, j - 1) < from)
  {
    start := from;
    while start < |bytes| && Continuation(bytes[start])
      invariant from <= start <= |bytes| && forall k :: from <= k < start ==> Continuation(bytes[k])
    {
      start := start + 1;
    }
    j := BoundaryIsCut(document, start);
    if j > 0 {
      LengthGrows(document, j - 1, j);
      CutIsBoundary(document, j - 1);
    }
  }

  function Limit(maxBytes: int): nat { if maxBytes < 1024 then 1024 else maxBytes }

  /** A document within the limit is passed on as it is. Of a longer one, whole characters of its head and
      tail are kept around the marker, head before tail. The whole is within the limit exactly when the
      marker is, which it is when lower-casing keeps the length; a marker that is not takes the whole place. */
  method BoundedDocument(w: Wording, document: Text, lowered: Text, maxBytes: int, isLinkedData: Text -> bool) returns (result: Text)
    requires Measured(w)
    ensures var limit, marker := Limit(maxBytes), MarkerOf(w, document, lowered, Limit(maxBytes), isLinkedData);
      if Size(document) <= limit then result == document
      else if Size(marker) <= limit then exists i, j :: CutAt(document, marker, limit, result, i, j)
      else result == marker
    ensures |lowered| == |document| ==> Size(result) <= Limit(maxBytes)
  {
    var bytes := EncodeAll(document);
    var limit := Limit(maxBytes);
    var fragments := StructuredFragments(w, document, lowered, 2 * limit / 5, isLinkedData);
    if |bytes| <= limit { return document; }
    var marker := Marker(w, Joined(fragments));
    if |lowered| == |document| { MarkerFits(w, document, lowered, limit, isLinkedData); }
    ghost var i, j;
    result, i, j := Assemble(document, bytes, marker, limit);
    if Size(marker) <= limit { CutFits(document, marker, limit, result, i, j); }
  }

  method Assemble(document: Text, bytes: Bytes, marker: Text, limit: nat) returns (result: Text, ghost i: nat, ghost j: nat)
    requires bytes == EncodeAll(document) && limit < |bytes|
    ensures if Size(marker) <= limit then CutAt(document, marker, limit, result, i, j) else result == marker
  {
    var available := if Size(marker) <= limit then limit - Size(marker) else 0;
    var headLength := 3 * available / 4;
    var tailLength := available - headLength;
    var headEnd, tailStart;
    headEnd, i := HeadEnd(document, bytes, headLength);
    tailStart, j := TailStart(document, bytes, |bytes| - tailLength);
    LengthGrows(document, if j < i then j else i, if j < i then i else j);
    CutInTwo(document, i);
    CutInTwo(document, j);
    RoundTrip(document[..i]);
    RoundTrip(document[j..]);
    result := Unmarked(Decode(bytes[..headEnd])) + marker + Unmarked(Decode(bytes[tailStart..]));
    if Size(marker) > limit { NothingLeft(document, i, j); }
  }

  lemma NothingLeft(document: Text, i: nat, j: nat)
    requires i <= |document| && j <= |document| && Length(document, i) == 0 && Length(document, j) == Size(document)
    ensures document[..i] == [] && document[j..] == []
  {
    CutInTwo(document, j);
    SizeAtLeast(document[..i]);
    SizeAtLeast(document[j..]);
  }

  // ---- the wording in use ----

  const OMITTED := "\n<!-- content omitted from regex extraction; full document retained for hashing -->"
  const RETAINED := "\n<!-- retained structured product evidence -->\n"

  function Html(): (w: Wording)
    ensures Measured(w)
  {
    AsciiSize(Ascii(OMITTED));
    AsciiSize(Ascii(RETAINED));
    Wording(Ascii("<script"), Ascii("</script"), Ascii(">"), Ascii(OMITTED), Ascii(RETAINED))
  }

  /** The cutter with the wording in use. */
  method BoundedExtractionDocument(document: Text, lowered: Text, maxBytes: int, isLinkedData: Text -> bool) returns (result: Text)
    ensures var limit, marker := Limit(maxBytes), MarkerOf(Html(), document, lowered, Limit(maxBytes), isLinkedData);
      if Size(document) <= limit then result == document
      else if Size(marker) <= limit then exists i, j :: CutAt(document, marker, limit, result, i, j)
      else result == marker
    ensures |lowered| == |document| ==> Size(result) <= Limit(maxBytes)
  {
    result := BoundedDocument(Html(), document, lowered, maxBytes, isLinkedData);
  }
}
