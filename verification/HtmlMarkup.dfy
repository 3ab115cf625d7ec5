/** How HTML text is read from a '<' on: tags, comments and inert elements, as functions of the text
    still to be read. */
module HtmlMarkup {
  import opened Wrappers
  import opened MarkupReading

  const INERT := ["script", "style", "template", "noscript", "textarea", "title", "iframe", "xmp"]
  const RAW_TEXT := ["script", "style", "noscript", "textarea", "title", "iframe", "xmp"]

  predicate Listed(name: string, names: seq<string>) {
    names != [] && (names[0] == name || Listed(name, names[1..]))
  }

  /** White space as regular expressions see it. */
  predicate Space(c: char) {
    var n := c as int;
    9 <= n <= 13 || n == 0x20 || n == 0xA0 || n == 0x1680 || 0x2000 <= n <= 0x200A || n == 0x2028 || n == 0x2029
    || n == 0x202F || n == 0x205F || n == 0x3000 || n == 0xFEFF
  }

  predicate Letter(c: char) { 'a' <= c <= 'z' || 'A' <= c <= 'Z' }

  predicate NameChar(c: char) { Letter(c) || '0' <= c <= '9' || c == '_' || c == ':' || c == '-' }

  function Lower(c: char): char { if 'A' <= c <= 'Z' then c + ('a' - 'A') else c }

  function AfterSpace(s: string): (r: string)
    ensures |r| <= |s|
  {
    if s != "" && Space(s[0]) then AfterSpace(s[1..]) else s
  }

  /** The longest name that s starts with. */
  function NameOf(s: string): string {
    if s != "" && NameChar(s[0]) then [s[0]] + NameOf(s[1..]) else ""
  }

  function Lowered(s: string): string { if s == "" then "" else [Lower(s[0])] + Lowered(s[1..]) }

  // ---- tags ----

  datatype Tag = Tag(closing: bool, name: string, selfClosing: bool)

  predicate EndsWithSlash(s: string) {
    s != "" && (s[|s| - 1] == '/' || (Space(s[|s| - 1]) && EndsWithSlash(s[..|s| - 1])))
  }

  /** What a tag token says it is, if anything. */
  function Identity(token: string): Option<Tag> {
    if token == "" then None
    else
      var a := AfterSpace(token[1..]);
      var closing := a != "" && a[0] == '/';
      var b := if closing then a[1..] else a;
      var c := AfterSpace(b);
      if c == "" || !Letter(c[0]) then None
      else Some(Tag(closing, Lowered(NameOf(c)), token[|token| - 1] == '>' && EndsWithSlash(token[..|token| - 1])))
  }

  /** Characters up to and including the first '>' outside quotes, or all of them. */
  function TagRest(s: string, quote: Option<char>): (n: nat)
    ensures n <= |s|
  {
    if s == "" then 0
    else if quote.Some? then 1 + TagRest(s[1..], if s[0] == quote.value then None else quote)
    else if s[0] == '"' || s[0] == '\'' then 1 + TagRest(s[1..], Some(s[0]))
    else if s[0] == '>' then 1
    else 1 + TagRest(s[1..], None)
  }

  /** The length of the tag token that s starts with. */
  function TagLength(s: string): (n: nat)
    requires s != ""
    ensures 1 <= n <= |s|
  {
    1 + TagRest(s[1..], None)
  }

  /** Where the text c first occurs, or the length of s. */
  function Find(s: string, c: string): (n: nat)
    ensures n <= |s|
    ensures n < |s| ==> n + |c| <= |s|
  {
    if s == "" || c <= s then 0 else 1 + Find(s[1..], c)
  }

  predicate Comment(s: string) { "<!--" <= s }

  function CommentLength(s: string): (n: nat)
    requires Comment(s)
    ensures 4 <= n <= |s|
  {
    var n := Find(s[4..], "-->");
    if n == |s[4..]| then |s| else n + 7
  }

  // ---- inert elements ----

  /** Does s start with a closing tag of this name, in any case? Its length, if so. */
  function ClosingLength(s: string, name: string): (n: nat)
    ensures n <= |s|
  {
    if !("</" <= s) then 0
    else
      var a := AfterSpace(s[2..]);
      if |a| < |name| || Lowered(a[..|name|]) != name then 0
      else
        var c := AfterSpace(a[|name|..]);
        if c == "" || c[0] != '>' then 0 else |s| - |c| + 1
  }

  /** Raw text runs to the end of the first closing tag of its name at or after i. */
  function RawFrom(s: string, i: nat, name: string): (n: nat)
    requires i <= |s|
    ensures i <= n <= |s|
    decreases |s| - i
  {
    if i == |s| then i
    else if ClosingLength(s[i..], name) > 0 then i + ClosingLength(s[i..], name)
    else RawFrom(s, i + 1, name)
  }

  function RawLength(s: string, name: string): (n: nat)
    ensures n <= |s|
  {
    RawFrom(s, 0, name)
  }

  function Popped(stack: seq<string>, tag: Option<Tag>): seq<string> {
    if tag.None? || !Listed(tag.value.name, INERT) then stack
    else if tag.value.closing then
      if stack != [] && stack[|stack| - 1] == tag.value.name then stack[..|stack| - 1] else stack
    else if tag.value.selfClosing then stack else stack + [tag.value.name]
  }

  /** Nested inert elements, tag by tag, until the stack is empty. */
  function NestedLength(s: string, stack: seq<string>): (n: nat)
    ensures n <= |s|
    decreases |s|, 1
  {
    if s == "" || stack == [] then 0
    else if Find(s, "<") == |s| then |s|
    else Find(s, "<") + NestedFrom(s[Find(s, "<")..], stack)
  }

  /** The same from a '<' on. */
  function NestedFrom(t: string, stack: seq<string>): (n: nat)
    requires t != ""
    ensures n <= |t|
    decreases |t|, 0
  {
    if Comment(t) then CommentLength(t) + NestedLength(t[CommentLength(t)..], stack)
    else TagLength(t) + NestedLength(t[TagLength(t)..], Popped(stack, Identity(t[..TagLength(t)])))
  }

  function InertLength(s: string, name: string): (n: nat)
    ensures n <= |s|
  {
    if Listed(name, RAW_TEXT) then RawLength(s, name) else NestedLength(s, [name])
  }

  predicate OpensInert(token: string) {
    var tag := Identity(token);
    tag.Some? && !tag.value.closing && !tag.value.selfClosing && Listed(tag.value.name, INERT)
  }

  /** How much a comment or an inert element at the start of s takes up. */
  function DroppedLength(s: string): (n: nat)
    requires s != "" && (Comment(s) || OpensInert(s[..TagLength(s)]))
    ensures 1 <= n <= |s|
  {
    if Comment(s) then CommentLength(s)
    else TagLength(s) + InertLength(s[TagLength(s)..], Identity(s[..TagLength(s)]).value.name)
  }

  predicate Dropped(s: string)
    requires s != ""
  {
    Comment(s) || OpensInert(s[..TagLength(s)])
  }

  /** What a '<' begins, and how much of the text belongs to it. */
  function ReadTag(t: string): (r: Reading)
    ensures t != "" ==> 1 <= r.length <= |t|
  {
    if t == "" then Keep(0) else if Dropped(t) then Drop(DroppedLength(t)) else Keep(TagLength(t))
  }

  /** Did the tag find its '>'? */
  predicate Closed(s: string, quote: Option<char>) {
    s != "" &&
    if quote.Some? then Closed(s[1..], if s[0] == quote.value then None else quote)
    else if s[0] == '"' || s[0] == '\'' then Closed(s[1..], Some(s[0]))
    else s[0] == '>' || Closed(s[1..], None)
  }

  /** A tag that found its end ends there whatever follows; one that did not runs to the end of the text. */
  lemma {:induction false} RestAgain(s: string, quote: Option<char>, after: string)
    ensures !Closed(s, quote) ==> TagRest(s, quote) == |s|
    ensures Closed(s, quote) ==> TagRest(s, quote) > 0 && s[TagRest(s, quote) - 1] == '>'
    ensures Closed(s, quote) || after == "" ==> TagRest(s[..TagRest(s, quote)] + after, quote) == TagRest(s, quote)
  {
    var n := TagRest(s, quote);
    if s != "" && (quote.Some? || s[0] != '>') {
      var q := if quote.Some? then (if s[0] == quote.value then None else quote)
               else if s[0] == '"' || s[0] == '\'' then Some(s[0]) else None;
      RestAgain(s[1..], q, after);
      assert (s[..n] + after)[1..] == s[1..][..n - 1] + after;
    }
  }

  /** A kept token is kept again, whatever text follows it; one that runs to the end has none to follow. */
  lemma TokenAgain(s: string, after: string)
    requires s != "" && s[0] == '<' && !Dropped(s) && (Closed(s[1..], None) || after == "")
    ensures var token := s[..TagLength(s)]; TagLength(token + after) == |token| && !Dropped(token + after)
  {
    var n := TagLength(s);
    var token := s[..n];
    RestAgain(s[1..], None, after);
    assert (token + after)[1..] == s[1..][..n - 1] + after;
    assert (token + after)[..n] == token;
    if Comment(token + after) { NoNewComment(s, after); }
  }

  /** A token is too long, or ends too soon, for what follows to make it a comment. */
  lemma NoNewComment(s: string, after: string)
    requires s != "" && s[0] == '<' && (Closed(s[1..], None) || after == "") && Comment(s[..TagLength(s)] + after)
    ensures Comment(s)
  {
    var n := TagLength(s);
    RestAgain(s[1..], None, after);
    assert Closed(s[1..], None) ==> s[n - 1] == '>';
    forall i | 0 <= i < 4 && i < n
      ensures s[i] == "<!--"[i]
    {
      assert (s[..n] + after)[i] == s[i];
    }
  }

  /** A tag that was read and kept reads the same again with other text behind it. */
  lemma TagsReadAgain()
    ensures Proper(ReadTag) && ReadsAgain(ReadTag)
  {
    forall t, after | IsTag(t) && ReadTag(t).Keep? && (after == "" || ReadTag(t).length < |t|)
      ensures ReadTag(t[..ReadTag(t).length] + after) == ReadTag(t)
    {
      RestAgain(t[1..], None, "");
      TokenAgain(t, after);
    }
  }

  /** Stripping HTML twice is stripping it once, the tags that were kept are read again, and nothing else is. */
  lemma StripHtmlIsIdempotent(s: string)
    ensures Proper(ReadTag) && Strip(ReadTag, Strip(ReadTag, s)) == Strip(ReadTag, s)
    ensures Tokens(ReadTag, Strip(ReadTag, s)) == Tokens(ReadTag, s) && Inactive(ReadTag, Strip(ReadTag, s))
  {
    TagsReadAgain();
    StripIsIdempotent(ReadTag, s);
    OutputIsInactive(ReadTag, s);
  }
}
