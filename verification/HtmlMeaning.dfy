/** What is left out of a page, and where it begins and ends. */
module HtmlMeaning {
  import opened Wrappers
  import opened Collections
  import opened MarkupReading
  import opened HtmlMarkup

  // ---- everything else is kept ----

  /** A stretch of text without tags, a tag token that stays, or a stretch that is left out. */
  datatype Piece = Plain(text: string) | Stays(text: string) | Out(text: string)

  function Whole(ps: seq<Piece>): string { if ps == [] then "" else ps[0].text + Whole(ps[1..]) }

  function WithoutOut(ps: seq<Piece>): string {
    if ps == [] then "" else (if ps[0].Out? then "" else ps[0].text) + WithoutOut(ps[1..])
  }

  /** Each piece is what the text from there on begins with. */
  ghost predicate CutRight(read: string -> Reading, ps: seq<Piece>) {
    ps == [] || (CutRight(read, ps[1..]) &&
      match ps[0]
      case Plain(text) => NoTag(text)
      case Stays(text) => IsTag(Whole(ps)) && read(Whole(ps)) == Keep(|text|)
      case Out(text) => IsTag(Whole(ps)) && read(Whole(ps)) == Drop(|text|))
  }

  /** The text falls into pieces, of which stripping leaves out exactly those that are read as such. */
  lemma {:induction false} StripsPieces(read: string -> Reading, s: string) returns (ps: seq<Piece>)
    requires Proper(read)
    ensures Whole(ps) == s && WithoutOut(ps) == Strip(read, s) && CutRight(read, ps)
    decreases |s|
  {
    TextBeforeTag(s);
    if !HasTag(s) {
      ps := [Plain(s)];
      assert s[..Next(s)] == s;
      assert Whole([]) == "" && WithoutOut([]) == "" && ps[1..] == [];
    } else {
      var later := StripsPieces(read, Rest(read, s));
      ps := PiecesFrom(read, s, later);
      StripOnce(read, s);
    }
  }

  lemma Behind(p: Piece, ps: seq<Piece>)
    ensures Whole([p] + ps) == p.text + Whole(ps)
    ensures WithoutOut([p] + ps) == (if p.Out? then "" else p.text) + WithoutOut(ps)
  {
    assert ([p] + ps)[1..] == ps;
  }

  lemma CutBehind(read: string -> Reading, p: Piece, ps: seq<Piece>)
    requires CutRight(read, ps)
    requires match p
      case Plain(text) => NoTag(text)
      case Stays(text) => IsTag(text + Whole(ps)) && read(text + Whole(ps)) == Keep(|text|)
      case Out(text) => IsTag(text + Whole(ps)) && read(text + Whole(ps)) == Drop(|text|)
    ensures CutRight(read, [p] + ps)
  {
    Behind(p, ps);
    assert ([p] + ps)[1..] == ps;
  }

  lemma PiecesFrom(read: string -> Reading, s: string, later: seq<Piece>) returns (ps: seq<Piece>)
    requires Proper(read) && HasTag(s)
    requires Whole(later) == Rest(read, s) && CutRight(read, later)
    ensures Whole(ps) == s && WithoutOut(ps) == s[..Next(s)] + (Token(read, FromTag(s)) + WithoutOut(later)) && CutRight(read, ps)
  {
    var behind := TagPiece(read, s, later);
    SplitAtTag(s);
    ps := TextPiece(read, s[..Next(s)], behind);
  }

  lemma SplitAtTag(s: string)
    requires HasTag(s)
    ensures NoTag(s[..Next(s)]) && s[..Next(s)] + FromTag(s) == s
  {
    TextBeforeTag(s);
  }

  lemma TextPiece(read: string -> Reading, text: string, behind: seq<Piece>) returns (ps: seq<Piece>)
    requires NoTag(text) && CutRight(read, behind)
    ensures Whole(ps) == text + Whole(behind) && WithoutOut(ps) == text + WithoutOut(behind) && CutRight(read, ps)
  {
    ps := [Plain(text)] + behind;
    Behind(Plain(text), behind);
    CutBehind(read, Plain(text), behind);
  }

  lemma StripOnce(read: string -> Reading, s: string)
    requires Proper(read) && HasTag(s)
    ensures Strip(read, s) == s[..Next(s)] + (Token(read, FromTag(s)) + Strip(read, Rest(read, s)))
  {
    Associates(s[..Next(s)], Token(read, FromTag(s)), Strip(read, Rest(read, s)));
  }

  /** The piece that begins with the next tag. */
  lemma TagPiece(read: string -> Reading, s: string, later: seq<Piece>) returns (behind: seq<Piece>)
    requires Proper(read) && HasTag(s)
    requires Whole(later) == Rest(read, s) && CutRight(read, later)
    ensures Whole(behind) == FromTag(s) && WithoutOut(behind) == Token(read, FromTag(s)) + WithoutOut(later) && CutRight(read, behind)
  {
    TextBeforeTag(s);
    var t := FromTag(s);
    var n := read(t).length;
    var piece := if read(t).Drop? then Out(t[..n]) else Stays(t[..n]);
    assert t == t[..n] + Whole(later);
    Behind(piece, later);
    CutBehind(read, piece, later);
    behind := [piece] + later;
  }

  // ---- where things end ----

  ghost predicate StandsAt(s: string, c: string, i: nat) { i + |c| <= |s| && s[i..i + |c|] == c }

  /** c stands at place i, and at none before from `from` on. */
  ghost predicate FirstAt(s: string, c: string, from: nat, i: nat) {
    from <= i && StandsAt(s, c, i) && forall j: nat :: from <= j < i ==> !StandsAt(s, c, j)
  }

  ghost predicate Nowhere(s: string, c: string, from: nat) { forall j: nat :: from <= j ==> !StandsAt(s, c, j) }

  lemma StandsFurther(s: string, k: nat, c: string, j: nat)
    requires k <= |s|
    ensures StandsAt(s, c, k + j) <==> StandsAt(s[k..], c, j)
  {
    if k + j + |c| <= |s| { assert s[k..][j..j + |c|] == s[k + j..k + j + |c|]; }
  }

  lemma StandsInFront(s: string, c: string)
    ensures StandsAt(s, c, 0) <==> c <= s
  {
    if |c| <= |s| { assert s[0..|c|] == s[..|c|]; }
  }

  lemma {:induction false} FindIsFirst(s: string, c: string)
    requires c != ""
    ensures if Find(s, c) < |s| then FirstAt(s, c, 0, Find(s, c)) else Nowhere(s, c, 0)
  {
    StandsInFront(s, c);
    if s != "" && !(c <= s) {
      FindIsFirst(s[1..], c);
      forall j: nat | j >= 1
        ensures StandsAt(s, c, j) <==> StandsAt(s[1..], c, j - 1)
      {
        StandsFurther(s, 1, c, j - 1);
      }
    }
  }

  /** A comment ends behind the first "-->" that follows its four characters, or with the text. */
  lemma CommentEnds(t: string)
    requires Comment(t)
    ensures ReadTag(t).Drop?
    ensures var n := ReadTag(t).length; (n >= 7 && FirstAt(t, "-->", 4, n - 3)) || (n == |t| && Nowhere(t, "-->", 4))
  {
    var close := "-->";
    FindIsFirst(t[4..], close);
    forall j: nat | j >= 4
      ensures StandsAt(t, close, j) <==> StandsAt(t[4..], close, j - 4)
    {
      StandsFurther(t, 4, close, j - 4);
    }
  }

  // ---- tags ----

  /** The quote that a place in a tag is inside of. */
  function QuoteAt(t: string, i: nat): Option<char>
    requires 1 <= i <= |t|
  {
    if i == 1 then None
    else
      var q, c := QuoteAt(t, i - 1), t[i - 1];
      if q.Some? then (if c == q.value then None else q) else if c == '"' || c == '\'' then Some(c) else None
  }

  ghost predicate Ends(t: string, i: nat)
    requires 1 <= i < |t|
  {
    t[i] == '>' && QuoteAt(t, i).None?
  }

  lemma {:induction false} RestEnds(t: string, i: nat)
    requires 1 <= i <= |t|
    ensures var n := i + TagRest(t[i..], QuoteAt(t, i));
      && i <= n <= |t| && (forall j :: i <= j < n - 1 ==> !Ends(t, j))
      && ((i < n && Ends(t, n - 1)) || (n == |t| && (i < n ==> !Ends(t, n - 1))))
    decreases |t| - i
  {
    if i < |t| {
      assert t[i..][1..] == t[i + 1..];
      if !Ends(t, i) { RestEnds(t, i + 1); }
    }
  }

  /** A tag ends behind its first '>' outside quotes, or with the text. */
  lemma TagEnds(t: string)
    requires t != ""
    ensures var n := TagLength(t);
      && 1 <= n <= |t| && (forall j :: 1 <= j < n - 1 ==> !Ends(t, j))
      && ((n > 1 && Ends(t, n - 1)) || (n == |t| && (n > 1 ==> !Ends(t, n - 1))))
  {
    RestEnds(t, 1);
  }

  // ---- raw text ----

  ghost predicate AllSpace(s: string) { forall i :: 0 <= i < |s| ==> Space(s[i]) }

  /** A closing tag of this name, in any case, with room inside. */
  ghost predicate ClosingTag(u: string, name: string) {
    exists a, n, b :: ClosingParts(u, a, n, b, name)
  }

  ghost predicate ClosingParts(u: string, a: string, n: string, b: string, name: string) {
    u == "</" + a + n + b + ">" && AllSpace(a) && AllSpace(b) && |n| == |name| && Lowered(n) == name
  }

  lemma {:induction false} SpaceRun(s: string)
    ensures var k := |s| - |AfterSpace(s)|; 0 <= k <= |s| && AfterSpace(s) == s[k..] && AllSpace(s[..k]) && (k < |s| ==> !Space(s[k]))
  {
    if s != "" && Space(s[0]) {
      SpaceRun(s[1..]);
      var k := |s[1..]| - |AfterSpace(s[1..])|;
      assert s[1..][k..] == s[k + 1..];
      assert s[..k + 1] == [s[0]] + s[1..][..k];
    }
  }

  lemma {:induction false} SpaceSkipped(a: string, r: string)
    requires AllSpace(a) && (r == "" || !Space(r[0]))
    ensures AfterSpace(a + r) == r
  {
    if a == "" {
      assert a + r == r;
    } else {
      assert (a + r)[1..] == a[1..] + r;
      SpaceSkipped(a[1..], r);
    }
  }

  lemma {:induction false} LoweredSize(s: string)
    ensures |Lowered(s)| == |s|
  {
    if s != "" { LoweredSize(s[1..]); }
  }

  /** Where white space ends. */
  lemma SpaceUpTo(s: string, from: nat) returns (k: nat)
    requires from <= |s|
    ensures from <= k <= |s| && AfterSpace(s[from..]) == s[k..] && AllSpace(s[from..k])
  {
    SpaceRun(s[from..]);
    k := |s| - |AfterSpace(s[from..])|;
    assert s[from..][k - from..] == s[k..] && s[from..][..k - from] == s[from..k];
  }

  lemma ClosingPlaces(s: string, name: string) returns (p: nat, q: nat, r: nat)
    requires ClosingLength(s, name) > 0
    ensures 2 <= p && q == p + |name| && q <= r < |s| && "</" <= s && s[r] == '>' && ClosingLength(s, name) == r + 1
    ensures AllSpace(s[2..p]) && Lowered(s[p..q]) == name && AllSpace(s[q..r])
  {
    p := SpaceUpTo(s, 2);
    q := p + |name|;
    assert s[p..][..|name|] == s[p..q] && s[p..][|name|..] == s[q..];
    r := SpaceUpTo(s, q);
  }

  /** What is found at the start of s is such a tag. */
  lemma ClosingIsTag(s: string, name: string)
    requires ClosingLength(s, name) > 0
    ensures ClosingTag(s[..ClosingLength(s, name)], name)
  {
    var p, q, r := ClosingPlaces(s, name);
    SplitInFive(s, p, q, r);
    assert ClosingParts(s[..r + 1], s[2..p], s[p..q], s[q..r], name);
  }

  lemma TagIsLong(u: string, name: string)
    ensures ClosingTag(u, name) ==> |u| >= 3
  {
  }

  lemma SplitInFive(s: string, p: nat, q: nat, r: nat)
    requires 2 <= p <= q <= r < |s| && "</" <= s && s[r] == '>'
    ensures s[..r + 1] == "</" + s[2..p] + s[p..q] + s[q..r] + ">"
  {
    assert s[..2] == "</" && s[..p] == s[..2] + s[2..p] && s[..q] == s[..p] + s[p..q] && s[..r] == s[..q] + s[q..r];
  }

  /** And every such tag at the start of s is found. */
  lemma TagIsClosing(s: string, name: string, m: nat)
    requires name != "" && !Space(name[0]) && m <= |s| && ClosingTag(s[..m], name)
    ensures ClosingLength(s, name) == m
  {
    var a, n, b :| ClosingParts(s[..m], a, n, b, name);
    var rest := s[m..];
    assert s == s[..m] + rest;
    assert s[2..] == a + (n + b + ">" + rest);
    assert Lowered(n)[0] == Lower(n[0]);
    SpaceSkipped(a, n + b + ">" + rest);
    var from := AfterSpace(s[2..]);
    assert from == n + b + ">" + rest;
    assert from[..|name|] == n && from[|name|..] == b + (">" + rest);
    SpaceSkipped(b, ">" + rest);
  }

  ghost predicate ClosesAt(s: string, i: nat, m: nat, name: string) { i <= m <= |s| && ClosingTag(s[i..m], name) }

  lemma NoneAt(s: string, i: nat, name: string)
    requires i <= |s| && name != "" && !Space(name[0]) && (i == |s| || ClosingLength(s[i..], name) == 0)
    ensures forall m: nat :: !ClosesAt(s, i, m, name)
  {
    forall m: nat
      ensures !ClosesAt(s, i, m, name)
    {
      if i <= m <= |s| {
        TagIsLong(s[i..m], name);
        if ClosingTag(s[i..m], name) {
          assert s[i..][..m - i] == s[i..m];
          TagIsClosing(s[i..], name, m - i);
        }
      }
    }
  }

  /** The first closing tag of this name from i on ends at n; or there is none, and n is the end. */
  ghost predicate EndsFrom(s: string, i: nat, name: string, n: nat) {
    || (exists j: nat :: i <= j && ClosesAt(s, j, n, name) && NoneBetween(s, i, j, name))
    || (n == |s| && NoneBetween(s, i, |s| + 1, name))
  }

  ghost predicate NoneBetween(s: string, i: nat, j: nat, name: string) {
    forall k: nat, m: nat :: i <= k < j ==> !ClosesAt(s, k, m, name)
  }

  lemma {:induction false} RawFromEnds(s: string, i: nat, name: string)
    requires i <= |s| && name != "" && !Space(name[0])
    ensures EndsFrom(s, i, name, RawFrom(s, i, name))
    decreases |s| - i
  {
    if i < |s| && ClosingLength(s[i..], name) > 0 {
      FoundHere(s, i, name);
    } else {
      NoneAt(s, i, name);
      if i < |s| { RawFromEnds(s, i + 1, name); }
    }
  }

  lemma FoundHere(s: string, i: nat, name: string)
    requires i < |s| && ClosingLength(s[i..], name) > 0
    ensures EndsFrom(s, i, name, i + ClosingLength(s[i..], name))
  {
    ClosingIsTag(s[i..], name);
    var n := i + ClosingLength(s[i..], name);
    assert s[i..][..n - i] == s[i..n];
    assert ClosesAt(s, i, n, name) && NoneBetween(s, i, i, name);
  }

  lemma {:induction false} ListedIsIn(name: string, names: seq<string>)
    ensures Listed(name, names) <==> name in names
  {
    if names != [] { ListedIsIn(name, names[1..]); }
  }

  /** What is left out is comments, and elements that a tag with one of eight names opens. Of those, all but
      templates end behind the first closing tag of their name, in any case, or with the text. */
  lemma DropsExactly(t: string)
    requires t != ""
    ensures ReadTag(t).Drop? <==>
      "<!--" <= t
      || (Identity(t[..TagLength(t)]).Some? && !Identity(t[..TagLength(t)]).value.closing && !Identity(t[..TagLength(t)]).value.selfClosing
          && Identity(t[..TagLength(t)]).value.name in
             ["script", "style", "template", "noscript", "textarea", "title", "iframe", "xmp"])
  {
    var tag := Identity(t[..TagLength(t)]);
    if tag.Some? { ListedIsIn(tag.value.name, INERT); }
  }

  ghost predicate EndsRawText(s: string, name: string, n: nat) { EndsFrom(s, 0, name, n) }

  lemma RawLengthEnds(s: string, name: string)
    requires name != "" && !Space(name[0])
    ensures EndsRawText(s, name, RawLength(s, name))
  {
    RawFromEnds(s, 0, name);
  }

  lemma RawTextEnds(t: string)
    requires t != "" && !Comment(t) && OpensInert(t[..TagLength(t)]) && Identity(t[..TagLength(t)]).value.name != "template"
    ensures var n := TagLength(t);
      && ReadTag(t).Drop? && ReadTag(t).length >= n
      && EndsRawText(t[n..], Identity(t[..n]).value.name, ReadTag(t).length - n)
  {
    var name := Identity(t[..TagLength(t)]).value.name;
    ListedIsIn(name, INERT);
    ListedIsIn(name, RAW_TEXT);
    RawLengthEnds(t[TagLength(t)..], name);
  }

  ghost predicate Name(n: string) { n != "" && Letter(n[0]) && forall i :: 0 <= i < |n| ==> NameChar(n[i]) }

  lemma {:induction false} NameIsRead(n: string, rest: string)
    requires (forall i :: 0 <= i < |n| ==> NameChar(n[i])) && (rest == "" || !NameChar(rest[0]))
    ensures NameOf(n + rest) == n
  {
    if n == "" {
      assert n + rest == rest;
    } else {
      assert (n + rest)[1..] == n[1..] + rest;
      NameIsRead(n[1..], rest);
    }
  }

  /** How a tag is told: room, perhaps a slash, room again, and a name; in any case. */
  lemma OpeningIsRead(a: string, n: string, rest: string)
    requires AllSpace(a) && Name(n) && (rest == "" || !NameChar(rest[0]))
    ensures var tag := Identity("<" + a + n + rest); tag.Some? && !tag.value.closing && tag.value.name == Lowered(n)
  {
    var token := "<" + a + n + rest;
    assert token[1..] == a + (n + rest);
    SpaceSkipped(a, n + rest);
    SpaceSkipped("", n + rest);
    assert "" + (n + rest) == n + rest;
    NameIsRead(n, rest);
  }

  lemma ClosingIsRead(a: string, b: string, n: string, rest: string)
    requires AllSpace(a) && AllSpace(b) && Name(n) && (rest == "" || !NameChar(rest[0]))
    ensures var tag := Identity("<" + a + "/" + b + n + rest); tag.Some? && tag.value.closing && tag.value.name == Lowered(n)
  {
    var token := "<" + a + "/" + b + n + rest;
    assert token[1..] == a + ("/" + b + n + rest);
    SpaceSkipped(a, "/" + b + n + rest);
    assert ("/" + b + n + rest)[1..] == b + (n + rest);
    SpaceSkipped(b, n + rest);
    NameIsRead(n, rest);
  }

  /** A tag closes itself exactly when, but for room, it ends in "/>". */
  lemma ClosingItself(u: string, k: nat)
    requires u != "" && u[|u| - 1] == '>' && k < |u| - 1 && !Space(u[k]) && AllSpace(u[k + 1..|u| - 1]) && Identity(u).Some?
    ensures Identity(u).value.selfClosing <==> u[k] == '/'
  {
    SlashBeforeRoom(u[..|u| - 1], k);
  }

  lemma {:induction false} SlashBeforeRoom(s: string, k: nat)
    requires k < |s| && !Space(s[k]) && AllSpace(s[k + 1..])
    ensures EndsWithSlash(s) <==> s[k] == '/'
  {
    var n := |s| - 1;
    if k < n {
      assert s[n] == s[k + 1..][n - k - 1] && s[..n][k + 1..] == s[k + 1..][..n - k - 1];
      SlashBeforeRoom(s[..n], k);
    }
  }

  // ---- templates ----

  /** What may stand in a template: text, comments, tags that open nothing to leave out, stray closing tags, and
      elements of the eight names, one inside the other. */
  datatype Node = Words(text: string) | Note(text: string) | Other(token: string) | Element(opening: string, inside: seq<Node>, closing: string)

  function Written(ns: seq<Node>): string { if ns == [] then "" else WrittenNode(ns[0]) + Written(ns[1..]) }

  function WrittenNode(n: Node): string {
    match n
    case Words(text) => text
    case Note(text) => "<!--" + text + "-->"
    case Other(token) => token
    case Element(opening, inside, closing) => opening + (Written(inside) + closing)
  }

  /** A whole tag. */
  ghost predicate TagToken(u: string) { u != "" && u[0] == '<' && !Comment(u) && TagLength(u) == |u| && Closed(u[1..], None) }

  ghost predicate ClosesFor(closing: string, opening: string) {
    && TagToken(opening) && TagToken(closing) && OpensInert(opening) && Identity(closing).Some?
    && Identity(closing).value.closing && Identity(closing).value.name == Identity(opening).value.name
  }

  /** A tag that neither opens one of the eight nor closes the element around it. */
  ghost predicate OpensNothing(u: string, around: string) {
    TagToken(u) && var tag := Identity(u);
      tag.None? || !Listed(tag.value.name, INERT) || (if tag.value.closing then tag.value.name != around else tag.value.selfClosing)
  }

  ghost predicate Balanced(ns: seq<Node>, around: string) { ns == [] || (BalancedNode(ns[0], around) && Balanced(ns[1..], around)) }

  ghost predicate BalancedNode(n: Node, around: string) {
    match n
    case Words(text) => NoTag(text)
    case Note(text) => FirstAt(text + "-->", "-->", 0, |text|)
    case Other(token) => OpensNothing(token, around)
    case Element(opening, inside, closing) => ClosesFor(closing, opening) && Balanced(inside, Identity(opening).value.name)
  }

  lemma {:induction false} FindPasses(text: string, rest: string)
    requires NoTag(text)
    ensures Find(text + rest, "<") == |text| + Find(rest, "<")
  {
    if text == "" {
      assert text + rest == rest;
    } else {
      assert (text + rest)[1..] == text[1..] + rest && (text + rest)[0] != '<';
      FindPasses(text[1..], rest);
    }
  }

  lemma WordsPass(text: string, rest: string, stack: seq<string>)
    requires NoTag(text) && stack != []
    ensures NestedLength(text + rest, stack) == |text| + NestedLength(rest, stack)
  {
    var s := text + rest;
    FindPasses(text, rest);
    if rest != "" && Find(rest, "<") < |rest| { assert s[Find(s, "<")..] == rest[Find(rest, "<")..]; }
  }

  lemma {:induction false} FindStops(s: string, c: string, n: nat, rest: string)
    requires c != "" && FirstAt(s, c, 0, n)
    ensures Find(s + rest, c) == n
  {
    StandsInFront(s, c);
    StandsInFront(s + rest, c);
    if n == 0 {
      assert (s + rest)[..|c|] == s[..|c|];
    } else {
      assert !StandsAt(s, c, 0) && (s + rest)[..|c|] == s[..|c|];
      forall j: nat
        ensures StandsAt(s, c, 1 + j) <==> StandsAt(s[1..], c, j)
      {
        StandsFurther(s, 1, c, j);
      }
      FindStops(s[1..], c, n - 1, rest);
      assert (s + rest)[1..] == s[1..] + rest;
    }
  }

  lemma NotePasses(text: string, rest: string, stack: seq<string>)
    requires FirstAt(text + "-->", "-->", 0, |text|) && stack != []
    ensures NestedLength("<!--" + text + "-->" + rest, stack) == |text| + 7 + NestedLength(rest, stack)
  {
    var t := "<!--" + text + "-->" + rest;
    var close := "-->";
    FindStops(text + close, close, |text|, rest);
    assert t[4..] == text + close + rest && t[|text| + 7..] == rest;
  }

  lemma TagPasses(u: string, rest: string, stack: seq<string>)
    requires TagToken(u) && stack != []
    ensures NestedLength(u + rest, stack) == |u| + NestedLength(rest, Popped(stack, Identity(u)))
  {
    var t := u + rest;
    assert u[..|u|] == u && t[1..] == u[1..] + rest && u[1..][..|u| - 1] == u[1..];
    RestAgain(u[1..], None, rest);
    if Comment(t) { NoNewComment(u, rest); }
    assert t[..|u|] == u && t[|u|..] == rest && Find(t, "<") == 0;
  }

  lemma {:induction false} BalancedPasses(ns: seq<Node>, rest: string, stack: seq<string>)
    requires stack != [] && Balanced(ns, stack[|stack| - 1])
    ensures NestedLength(Written(ns) + rest, stack) == |Written(ns)| + NestedLength(rest, stack)
  {
    if ns == [] {
      assert "" + rest == rest;
    } else {
      NodePasses(ns[0], Written(ns[1..]) + rest, stack);
      BalancedPasses(ns[1..], rest, stack);
      Associates(WrittenNode(ns[0]), Written(ns[1..]), rest);
    }
  }

  lemma {:induction false} NodePasses(n: Node, rest: string, stack: seq<string>)
    requires stack != [] && BalancedNode(n, stack[|stack| - 1])
    ensures NestedLength(WrittenNode(n) + rest, stack) == |WrittenNode(n)| + NestedLength(rest, stack)
  {
    match n
    case Words(text) => WordsPass(text, rest, stack);
    case Note(text) => NotePasses(text, rest, stack);
    case Other(token) => TagPasses(token, rest, stack);
    case Element(opening, inside, closing) =>
      InsidePasses(opening, inside, closing, rest, stack);
      Associates(opening, Written(inside) + closing, rest);
      Associates(Written(inside), closing, rest);
  }

  lemma {:induction false} InsidePasses(opening: string, inside: seq<Node>, closing: string, rest: string, stack: seq<string>)
    requires ClosesFor(closing, opening) && Balanced(inside, Identity(opening).value.name) && stack != []
    ensures NestedLength(opening + (Written(inside) + (closing + rest)), stack)
         == |opening| + |Written(inside)| + |closing| + NestedLength(rest, stack)
    decreases inside
  {
    var name := Identity(opening).value.name;
    TagPasses(opening, Written(inside) + (closing + rest), stack);
    BalancedPasses(inside, closing + rest, stack + [name]);
    TagPasses(closing, rest, stack + [name]);
    assert (stack + [name])[..|stack|] == stack;
  }

  lemma OpeningIsDropped(opening: string, behind: string)
    requires TagToken(opening) && OpensInert(opening)
    ensures ReadTag(opening + behind) == Drop(|opening| + InertLength(behind, Identity(opening).value.name))
  {
    var t := opening + behind;
    assert opening[..|opening|] == opening && t[1..] == opening[1..] + behind && opening[1..][..|opening| - 1] == opening[1..];
    RestAgain(opening[1..], None, behind);
    if Comment(t) { NoNewComment(opening, behind); }
    assert t[..|opening|] == opening && t[|opening|..] == behind;
  }

  /** A template is left out together with what is nested in it, up to its own closing tag and no further. */
  lemma TemplateEnds(opening: string, inside: seq<Node>, closing: string, rest: string)
    requires ClosesFor(closing, opening) && Identity(opening).value.name == "template" && Balanced(inside, "template")
    ensures ReadTag(opening + (Written(inside) + (closing + rest))) == Drop(|opening| + |Written(inside)| + |closing|)
  {
    OpeningIsDropped(opening, Written(inside) + (closing + rest));
    TemplateIsNested();
    NestedPasses(inside, closing, rest, "template");
  }

  lemma TemplateIsNested()
    ensures Listed("template", INERT) && !Listed("template", RAW_TEXT)
  {
    ListedIsIn("template", INERT);
    ListedIsIn("template", RAW_TEXT);
  }

  lemma NestedPasses(inside: seq<Node>, closing: string, rest: string, name: string)
    requires TagToken(closing) && Identity(closing).Some? && Identity(closing).value.closing && Identity(closing).value.name == name
    requires Listed(name, INERT) && Balanced(inside, name)
    ensures NestedLength(Written(inside) + (closing + rest), [name]) == |Written(inside)| + |closing|
  {
    BalancedPasses(inside, closing + rest, [name]);
    TagPasses(closing, rest, [name]);
    assert [name][..0] == [];
  }
}
