/** Stripping text tag by tag, for any way of reading tags. */
module MarkupReading {
  import opened Collections

  /** What a '<' begins: a token to copy, or a stretch to leave out. */
  datatype Reading = Keep(length: nat) | Drop(length: nat)

  predicate IsTag(t: string) { t != "" && t[0] == '<' }

  ghost predicate Proper(read: string -> Reading) { forall t :: t != "" ==> 1 <= read(t).length <= |t| }

  /** A token that is copied is read as the same token when other text follows it; a token that ran to the
      end of the text has none to follow it. */
  ghost predicate ReadsAgain(read: string -> Reading)
    requires Proper(read)
  {
    forall t, after :: IsTag(t) && read(t).Keep? && (after == "" || read(t).length < |t|) ==>
      read(t[..read(t).length] + after) == read(t)
  }

  /** The position of the first '<' at or after i, or the end. */
  function NextFrom(s: string, i: nat): (n: nat)
    requires i <= |s|
    ensures i <= n <= |s| && (n < |s| ==> s[n] == '<')
    decreases |s| - i
  {
    if i == |s| || s[i] == '<' then i else NextFrom(s, i + 1)
  }

  function Next(s: string): (n: nat)
    ensures n <= |s| && (n < |s| ==> s[n] == '<')
  {
    NextFrom(s, 0)
  }

  predicate HasTag(s: string) { Next(s) < |s| }

  /** From the first '<' on. */
  function FromTag(s: string): (t: string)
    requires HasTag(s)
    ensures IsTag(t) && |t| + Next(s) == |s|
  {
    s[Next(s)..]
  }

  function Token(read: string -> Reading, t: string): string
    requires Proper(read) && t != ""
  {
    if read(t).Drop? then "" else t[..read(t).length]
  }

  /** What the first step of reading s copies to the output. */
  function Kept(read: string -> Reading, s: string): string
    requires Proper(read) && HasTag(s)
  {
    s[..Next(s)] + Token(read, FromTag(s))
  }

  /** What it leaves to read. */
  function Rest(read: string -> Reading, s: string): (r: string)
    requires Proper(read) && HasTag(s)
    ensures |r| < |s|
  {
    FromTag(s)[read(FromTag(s)).length..]
  }

  function Strip(read: string -> Reading, s: string): string
    requires Proper(read)
    decreases |s|
  {
    if !HasTag(s) then s else Kept(read, s) + Strip(read, Rest(read, s))
  }

  /** The tag tokens that stay. */
  function Tokens(read: string -> Reading, s: string): seq<string>
    requires Proper(read)
    decreases |s|
  {
    if !HasTag(s) then []
    else (if read(FromTag(s)).Drop? then [] else [Token(read, FromTag(s))]) + Tokens(read, Rest(read, s))
  }

  /** Reading s tag by tag finds nothing to leave out. */
  predicate Inactive(read: string -> Reading, s: string)
    requires Proper(read)
    decreases |s|
  {
    !HasTag(s) || (read(FromTag(s)).Keep? && Inactive(read, Rest(read, s)))
  }

  // ---- what stays put ----

  predicate NoTag(s: string) { forall i :: 0 <= i < |s| ==> s[i] != '<' }

  lemma {:induction false} TextUpTo(s: string, i: nat)
    requires i <= |s| && NoTag(s[..i])
    ensures NoTag(s[..NextFrom(s, i)])
    decreases |s| - i
  {
    if i < |s| && s[i] != '<' {
      assert s[..i + 1] == s[..i] + [s[i]];
      TextUpTo(s, i + 1);
    }
  }

  lemma TextBeforeTag(s: string)
    ensures NoTag(s[..Next(s)])
  {
    TextUpTo(s, 0);
  }

  lemma {:induction false} SkipText(s: string, i: nat, j: nat)
    requires i <= j <= |s| && forall k :: i <= k < j ==> s[k] != '<'
    ensures NextFrom(s, i) == NextFrom(s, j)
    decreases j - i
  {
    if i < j { SkipText(s, i + 1, j); }
  }

  lemma {:induction false} Shifted(text: string, s: string, i: nat)
    requires i <= |s|
    ensures NextFrom(text + s, |text| + i) == |text| + NextFrom(s, i)
    decreases |s| - i
  {
    if i < |s| { Shifted(text, s, i + 1); }
  }

  /** Text in front moves the first tag and nothing else. */
  lemma TextInFront(text: string, s: string)
    requires NoTag(text)
    ensures Next(text + s) == |text| + Next(s)
  {
    SkipText(text + s, 0, |text|);
    Shifted(text, s, 0);
  }

  lemma SameTag(text: string, s: string)
    requires NoTag(text) && HasTag(s)
    ensures HasTag(text + s) && FromTag(text + s) == FromTag(s) && (text + s)[..Next(text + s)] == text + s[..Next(s)]
  {
    TextInFront(text, s);
    var n := Next(s);
    assert (text + s)[|text| + n..] == s[n..];
    assert (text + s)[..|text| + n] == text + s[..n];
  }

  lemma TextStep(read: string -> Reading, text: string, s: string)
    requires Proper(read) && NoTag(text) && HasTag(s)
    ensures HasTag(text + s) && FromTag(text + s) == FromTag(s) && Rest(read, text + s) == Rest(read, s)
  {
    SameTag(text, s);
  }

  lemma TextStays(read: string -> Reading, text: string, s: string)
    requires Proper(read) && NoTag(text)
    ensures Tokens(read, text + s) == Tokens(read, s) && (Inactive(read, text + s) <==> Inactive(read, s))
  {
    TextInFront(text, s);
    if HasTag(s) { TextStep(read, text, s); }
  }

  lemma TokenStays(read: string -> Reading, t: string, after: string)
    requires Proper(read) && ReadsAgain(read) && IsTag(t) && read(t).Keep? && (after == "" || read(t).length < |t|)
    ensures Tokens(read, Token(read, t) + after) == [Token(read, t)] + Tokens(read, after)
    ensures Inactive(read, Token(read, t) + after) <==> Inactive(read, after)
  {
  }

  /** The output of one step, with what follows it, is read back as it was. */
  lemma DropStays(read: string -> Reading, s: string, after: string)
    requires Proper(read) && HasTag(s) && read(FromTag(s)).Drop?
    ensures Tokens(read, Kept(read, s) + after) == Tokens(read, after)
    ensures Inactive(read, Kept(read, s) + after) <==> Inactive(read, after)
  {
    assert Kept(read, s) == s[..Next(s)];
    TextBeforeTag(s);
    TextStays(read, s[..Next(s)], after);
  }

  lemma KeepStays(read: string -> Reading, s: string, after: string)
    requires Proper(read) && ReadsAgain(read) && HasTag(s) && read(FromTag(s)).Keep? && (Rest(read, s) == "" ==> after == "")
    ensures Tokens(read, Kept(read, s) + after) == [Token(read, FromTag(s))] + Tokens(read, after)
    ensures Inactive(read, Kept(read, s) + after) <==> Inactive(read, after)
  {
    TokenStays(read, FromTag(s), after);
    TextBeforeTag(s);
    Associates(s[..Next(s)], Token(read, FromTag(s)), after);
    TextStays(read, s[..Next(s)], Token(read, FromTag(s)) + after);
  }

  /** Reading the output finds exactly the tokens that were kept, and nothing left to leave out. */
  lemma {:induction false} OutputIsInactive(read: string -> Reading, s: string)
    requires Proper(read) && ReadsAgain(read)
    ensures Inactive(read, Strip(read, s)) && Tokens(read, Strip(read, s)) == Tokens(read, s)
    decreases |s|
  {
    if HasTag(s) {
      OutputIsInactive(read, Rest(read, s));
      if read(FromTag(s)).Drop? {
        DropStays(read, s, Strip(read, Rest(read, s)));
      } else {
        KeepStays(read, s, Strip(read, Rest(read, s)));
      }
    }
  }

  lemma KeptLength(read: string -> Reading, s: string)
    requires Proper(read) && HasTag(s)
    ensures |Kept(read, s)| + |Rest(read, s)| <= |s|
    ensures read(FromTag(s)).Drop? ==> |Kept(read, s)| + |Rest(read, s)| < |s|
    ensures read(FromTag(s)).Keep? ==> s == Kept(read, s) + Rest(read, s)
  {
  }

  lemma {:induction false} NeverLonger(read: string -> Reading, s: string)
    requires Proper(read)
    ensures |Strip(read, s)| <= |s|
    decreases |s|
  {
    if HasTag(s) {
      KeptLength(read, s);
      NeverLonger(read, Rest(read, s));
    }
  }

  lemma SamePrefix(p: string, a: string, b: string)
    ensures p + a == p + b <==> a == b
  {
    assert (p + a)[|p|..] == a && (p + b)[|p|..] == b;
  }

  /** Stripping changes nothing exactly when there is nothing to leave out. */
  lemma {:induction false} UnchangedExactlyWhenInactive(read: string -> Reading, s: string)
    requires Proper(read)
    ensures Strip(read, s) == s <==> Inactive(read, s)
    decreases |s|
  {
    if HasTag(s) {
      KeptLength(read, s);
      NeverLonger(read, Rest(read, s));
      UnchangedExactlyWhenInactive(read, Rest(read, s));
      SamePrefix(Kept(read, s), Strip(read, Rest(read, s)), Rest(read, s));
    }
  }

  /** Stripping twice is stripping once. */
  lemma StripIsIdempotent(read: string -> Reading, s: string)
    requires Proper(read) && ReadsAgain(read)
    ensures Strip(read, Strip(read, s)) == Strip(read, s)
  {
    OutputIsInactive(read, s);
    UnchangedExactlyWhenInactive(read, Strip(read, s));
  }

  // ---- nothing is invented ----

  /** Is a got from b by deleting characters? */
  predicate Subsequence(a: string, b: string) {
    a == "" || (b != "" && ((a[0] == b[0] && Subsequence(a[1..], b[1..])) || Subsequence(a, b[1..])))
  }

  lemma {:induction false} SubsequenceSelf(a: string)
    ensures Subsequence(a, a)
  {
    if a != "" { SubsequenceSelf(a[1..]); }
  }

  lemma {:induction false} SubsequenceSkip(a: string, skipped: string, b: string)
    requires Subsequence(a, b)
    ensures Subsequence(a, skipped + b)
  {
    if skipped == "" {
      assert skipped + b == b;
    } else {
      SubsequenceSkip(a, skipped[1..], b);
      assert (skipped + b)[1..] == skipped[1..] + b;
    }
  }

  lemma {:induction false} SubsequencePrefix(kept: string, a: string, b: string)
    requires Subsequence(a, b)
    ensures Subsequence(kept + a, kept + b)
  {
    if kept == "" {
      assert kept + a == a && kept + b == b;
    } else {
      SubsequencePrefix(kept[1..], a, b);
      assert (kept + a)[1..] == kept[1..] + a && (kept + b)[1..] == kept[1..] + b;
    }
  }

  /** One step copies a prefix and skips what it leaves out. */
  lemma StepDeletes(read: string -> Reading, s: string, a: string)
    requires Proper(read) && HasTag(s) && Subsequence(a, Rest(read, s))
    ensures Subsequence(Kept(read, s) + a, s)
  {
    var text, t := s[..Next(s)], FromTag(s);
    var n := read(t).length;
    assert s == text + t && t == t[..n] + t[n..];
    if read(t).Drop? {
      SubsequenceSkip(a, t[..n], t[n..]);
      SubsequencePrefix(text, a, t);
      assert Kept(read, s) == text;
    } else {
      KeptLength(read, s);
      SubsequencePrefix(Kept(read, s), a, Rest(read, s));
    }
  }

  /** The output is the input with characters deleted. */
  lemma {:induction false} OnlyDeletes(read: string -> Reading, s: string)
    requires Proper(read)
    ensures Subsequence(Strip(read, s), s)
    decreases |s|
  {
    if HasTag(s) {
      OnlyDeletes(read, Rest(read, s));
      StepDeletes(read, s, Strip(read, Rest(read, s)));
    } else {
      SubsequenceSelf(s);
    }
  }

  // ---- reading by position ----

  lemma TagAt(value: string, cursor: nat, next: nat)
    requires cursor <= next < |value| && next == cursor + Next(value[cursor..])
    ensures HasTag(value[cursor..]) && FromTag(value[cursor..]) == value[next..]
    ensures value[cursor..][..Next(value[cursor..])] == value[cursor..next]
  {
  }

  lemma RestAt(read: string -> Reading, value: string, cursor: nat, next: nat, end: nat)
    requires Proper(read) && cursor <= next < end <= |value| && next == cursor + Next(value[cursor..])
    requires end == next + read(value[next..]).length
    ensures HasTag(value[cursor..]) && Rest(read, value[cursor..]) == value[end..]
  {
  }

  lemma KeptAt(read: string -> Reading, value: string, cursor: nat, next: nat, end: nat)
    requires Proper(read) && cursor <= next < end <= |value| && next == cursor + Next(value[cursor..])
    requires end == next + read(value[next..]).length
    ensures HasTag(value[cursor..])
    ensures Kept(read, value[cursor..]) == value[cursor..next] + (if read(value[next..]).Keep? then value[next..end] else "")
  {
    TagAt(value, cursor, next);
    Parts(value, next, end, end);
  }

  lemma StripStep(read: string -> Reading, s: string)
    requires Proper(read) && HasTag(s)
    ensures Strip(read, s) == Kept(read, s) + Strip(read, Rest(read, s))
  {
  }

  /** One step of a reader that keeps a position in the text. */
  lemma StepByPosition(read: string -> Reading, value: string, cursor: nat, next: nat, end: nat)
    requires Proper(read) && cursor <= next < end <= |value| && next == cursor + Next(value[cursor..])
    requires end == next + read(value[next..]).length
    ensures Strip(read, value[cursor..])
      == value[cursor..next] + (if read(value[next..]).Keep? then value[next..end] else "") + Strip(read, value[end..])
  {
    KeptAt(read, value, cursor, next, end);
    RestAt(read, value, cursor, next, end);
    StripStep(read, value[cursor..]);
  }

  lemma Parts(value: string, cursor: nat, next: nat, end: nat)
    requires cursor <= next <= end <= |value|
    ensures value[cursor..][..next - cursor] == value[cursor..next] && value[cursor..][next - cursor..] == value[next..]
    ensures value[next..][..end - next] == value[next..end] && value[next..][end - next..] == value[end..]
  {
  }

  lemma FromStart(read: string -> Reading, value: string)
    requires Proper(read)
    ensures Strip(read, value) == "" + Strip(read, value[0..])
  {
  }

  lemma TaglessStays(read: string -> Reading, s: string)
    requires Proper(read) && !HasTag(s)
    ensures Strip(read, s) == s + Strip(read, "")
  {
    assert Strip(read, "") == "";
  }

  lemma Suffix(value: string, a: nat, b: nat)
    requires a <= b <= |value|
    ensures value[a..][b - a..] == value[b..] && value[a..][..b - a] == value[a..b]
  {
  }
}
