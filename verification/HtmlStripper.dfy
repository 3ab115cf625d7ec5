/** The stripper as it runs: one cursor, one output, one stack of open inert elements. */
module HtmlStripper {
  import opened Collections
  import opened Wrappers
  import opened MarkupReading
  import opened HtmlMarkup

  lemma {:induction false} FindIsNext(s: string)
    ensures Find(s, "<") == Next(s)
  {
    if s != "" && s[0] != '<' {
      FindIsNext(s[1..]);
      assert s == [s[0]] + s[1..];
      TextInFront([s[0]], s[1..]);
    }
  }

  // ---- the specifications, one character or one tag further on ----

  lemma FindFurther(s: string, c: string)
    requires s != "" && !(c <= s)
    ensures Find(s, c) == 1 + Find(s[1..], c)
  {
  }

  lemma ReadIsTag(t: string, tag: Option<Tag>)
    requires t != "" && !Comment(t) && tag == Identity(t[..TagLength(t)])
    ensures ReadTag(t) ==
      if tag.Some? && !tag.value.closing && !tag.value.selfClosing && Listed(tag.value.name, INERT)
      then Drop(TagLength(t) + InertLength(t[TagLength(t)..], tag.value.name)) else Keep(TagLength(t))
  {
  }

  // ---- the loops ----

  /** Where c first occurs at or after a position; the length of the text when it does not. */
  method IndexOf(value: string, c: string, from: nat) returns (at: nat)
    requires from <= |value|
    ensures at == from + Find(value[from..], c)
  {
    at := from;
    while at < |value|
      invariant from <= at <= |value| && from + Find(value[from..], c) == at + Find(value[at..], c)
    {
      if c <= value[at..] { return; }
      FindFurther(value[at..], c);
      Suffix(value, at, at + 1);
      at := at + 1;
    }
  }

  method TagEnd(value: string, start: nat) returns (end: nat)
    requires start < |value|
    ensures end == start + TagLength(value[start..]) && start < end <= |value|
  {
    Suffix(value, start, start + 1);
    var quote := None;
    var index := start + 1;
    while index < |value|
      invariant start < index <= |value|
      invariant start + TagLength(value[start..]) == index + TagRest(value[index..], quote)
    {
      Suffix(value, index, index + 1);
      var character := value[index];
      if quote.Some? {
        if character == quote.value { quote := None; }
      } else if character == '"' || character == '\'' {
        quote := Some(character);
      } else if character == '>' {
        return index + 1;
      }
      index := index + 1;
    }
    end := |value|;
  }

  method CommentEnd(value: string, start: nat) returns (end: nat)
    requires start < |value| && Comment(value[start..])
    ensures end == start + CommentLength(value[start..]) && start < end <= |value|
  {
    Suffix(value, start, start + 4);
    var at := IndexOf(value, "-->", start + 4);
    end := if at == |value| then |value| else at + 3;
  }

  method RawEnd(value: string, from: nat, name: string) returns (end: nat)
    requires from <= |value|
    ensures end == from + RawLength(value[from..], name)
  {
    RawShifted(value, from, 0, name);
    end := from;
    while end < |value|
      invariant from <= end <= |value| && RawFrom(value, from, name) == RawFrom(value, end, name)
    {
      var closing := ClosingLength(value[end..], name);
      if closing > 0 { return end + closing; }
      end := end + 1;
    }
  }

  lemma {:induction false} RawShifted(value: string, from: nat, i: nat, name: string)
    requires from + i <= |value|
    ensures RawFrom(value, from + i, name) == from + RawFrom(value[from..], i, name)
    decreases |value| - i
  {
    if from + i < |value| {
      Suffix(value, from, from + i);
      if ClosingLength(value[from + i..], name) == 0 { RawShifted(value, from, i + 1, name); }
    }
  }

  method NestedEnd(value: string, from: nat, name: string) returns (end: nat)
    requires from <= |value|
    ensures end == from + NestedLength(value[from..], [name])
  {
    var stack := [name];
    end := from;
    while end < |value| && stack != []
      invariant from <= end <= |value|
      invariant from + NestedLength(value[from..], [name]) == end + NestedLength(value[end..], stack)
      decreases |value| - end
    {
      end, stack := NextNested(value, end, stack);
    }
  }

  /** The next comment or tag inside an inert element, or the end of the text. */
  method NextNested(value: string, cursor: nat, stack: seq<string>) returns (end: nat, stack': seq<string>)
    requires cursor < |value| && stack != []
    ensures cursor < end <= |value|
    ensures cursor + NestedLength(value[cursor..], stack) == end + NestedLength(value[end..], stack')
  {
    var next := IndexOf(value, "<", cursor);
    if next == |value| { return |value|, stack; }
    NestedAt(value, cursor, next, stack);
    end, stack' := PastNested(value, next, stack);
  }

  lemma NestedAt(value: string, cursor: nat, next: nat, stack: seq<string>)
    requires cursor <= next < |value| && stack != [] && next == cursor + Find(value[cursor..], "<")
    ensures cursor + NestedLength(value[cursor..], stack) == next + NestedFrom(value[next..], stack)
  {
    Suffix(value, cursor, next);
  }

  method PastNested(value: string, next: nat, stack: seq<string>) returns (end: nat, stack': seq<string>)
    requires next < |value| && stack != []
    ensures next < end <= |value|
    ensures next + NestedFrom(value[next..], stack) == end + NestedLength(value[end..], stack')
  {
    if Comment(value[next..]) {
      end := SkipComment(value, next, stack);
      stack' := stack;
    } else {
      end, stack' := ReadNested(value, next, stack);
    }
  }

  /** The stack after a tag. */
  method Push(stack: seq<string>, tag: Option<Tag>) returns (stack': seq<string>)
    requires stack != []
    ensures stack' == Popped(stack, tag)
  {
    stack' := stack;
    if tag.Some? && Listed(tag.value.name, INERT) {
      if tag.value.closing {
        if stack[|stack| - 1] == tag.value.name { stack' := stack[..|stack| - 1]; }
      } else if !tag.value.selfClosing {
        stack' := stack + [tag.value.name];
      }
    }
  }

  lemma PastComment(t: string, rest: string, stack: seq<string>)
    requires Comment(t) && rest == t[CommentLength(t)..]
    ensures NestedFrom(t, stack) == CommentLength(t) + NestedLength(rest, stack)
  {
  }

  method SkipComment(value: string, next: nat, stack: seq<string>) returns (end: nat)
    requires next < |value| && Comment(value[next..])
    ensures next < end <= |value|
    ensures next + NestedFrom(value[next..], stack) == end + NestedLength(value[end..], stack)
  {
    end := CommentEnd(value, next);
    Suffix(value, next, end);
    PastComment(value[next..], value[end..], stack);
  }

  method ReadNested(value: string, next: nat, stack: seq<string>) returns (end: nat, stack': seq<string>)
    requires next < |value| && stack != [] && !Comment(value[next..])
    ensures next < end <= |value|
    ensures next + NestedFrom(value[next..], stack) == end + NestedLength(value[end..], stack')
  {
    end := TagEnd(value, next);
    Suffix(value, next, end);
    stack' := Push(stack, Identity(value[next..end]));
  }

  method InertElementEnd(value: string, firstEnd: nat, firstName: string) returns (end: nat)
    requires firstEnd <= |value|
    ensures end == firstEnd + InertLength(value[firstEnd..], firstName)
  {
    if Listed(firstName, RAW_TEXT) {
      end := RawEnd(value, firstEnd, firstName);
    } else {
      end := NestedEnd(value, firstEnd, firstName);
    }
  }

  /** Where a tag and, if it opens an inert element, that element end; and whether it is copied. */
  method ReadTagAt(value: string, next: nat) returns (end: nat, keep: bool)
    requires next < |value| && !Comment(value[next..])
    ensures end == next + ReadTag(value[next..]).length && next < end <= |value| && keep == ReadTag(value[next..]).Keep?
  {
    end := TagEnd(value, next);
    Suffix(value, next, end);
    var tag := Identity(value[next..end]);
    ReadIsTag(value[next..], tag);
    keep := !(tag.Some? && !tag.value.closing && !tag.value.selfClosing && Listed(tag.value.name, INERT));
    if !keep { end := InertElementEnd(value, end, tag.value.name); }
  }

  /** Where reading goes on after a '<', and whether what was read is copied. */
  method ReadAt(value: string, next: nat) returns (end: nat, keep: bool)
    requires next < |value|
    ensures end == next + ReadTag(value[next..]).length && next < end <= |value| && keep == ReadTag(value[next..]).Keep?
  {
    if Comment(value[next..]) {
      end := CommentEnd(value, next);
      keep := false;
    } else {
      end, keep := ReadTagAt(value, next);
    }
  }

  /** From one '<' to where reading goes on: what is copied on the way. */
  method Advance(value: string, cursor: nat, next: nat) returns (end: nat, copied: string)
    requires cursor <= next < |value| && next == cursor + Next(value[cursor..])
    ensures next < end <= |value| && Proper(ReadTag)
    ensures Strip(ReadTag, value[cursor..]) == copied + Strip(ReadTag, value[end..])
  {
    TagsReadAgain();
    var keep;
    end, keep := ReadAt(value, next);
    StepByPosition(ReadTag, value, cursor, next, end);
    copied := value[cursor..next] + (if keep then value[next..end] else "");
  }

  /** The text without a further tag is copied. */
  lemma LastStretch(read: string -> Reading, value: string, cursor: nat)
    requires cursor < |value| && Find(value[cursor..], "<") == |value| - cursor && Proper(read)
    ensures Strip(read, value[cursor..]) == value[cursor..] + Strip(read, value[|value|..])
  {
    var rest := value[cursor..];
    assert !HasTag(rest) by { FindIsNext(rest); }
    assert value[|value|..] == "";
    TaglessStays(read, rest);
  }

  /** Up to the end of the next tag, or of the text if there is none. */
  method CopyNext(value: string, cursor: nat) returns (end: nat, copied: string)
    requires cursor < |value| && Proper(ReadTag)
    ensures cursor < end <= |value| && Strip(ReadTag, value[cursor..]) == copied + Strip(ReadTag, value[end..])
  {
    var next := IndexOf(value, "<", cursor);
    if next == |value| {
      LastStretch(ReadTag, value, cursor);
      return |value|, value[cursor..];
    }
    FindIsNext(value[cursor..]);
    end, copied := Advance(value, cursor, next);
  }

  method StripInactiveHtmlMarkup(value: string) returns (output: string)
    ensures Proper(ReadTag) && output == Strip(ReadTag, value)
  {
    TagsReadAgain();
    FromStart(ReadTag, value);
    output := "";
    var cursor := 0;
    while cursor < |value|
      invariant cursor <= |value| && Proper(ReadTag)
      invariant Strip(ReadTag, value) == output + Strip(ReadTag, value[cursor..])
    {
      var end, copied := CopyNext(value, cursor);
      Associates(output, copied, Strip(ReadTag, value[end..]));
      output, cursor := output + copied, end;
    }
  }
}
