/**
 The guard that withholds a stream while it could still turn out to be a known overload
 message. Chunks are made of whole characters.
 */
module PlaceholderGuard {
  import opened Chat
  import opened Text

  const OVERLOADED := " temporarily unable to respond to this volume of requests. please try again later."
  const PLACEHOLDERS := ["we're" + OVERLOADED, "we are" + OVERLOADED]

  const MAX_PLACEHOLDER := 512

  // --------------------------------------------------------------- normal forms

  /** Whether a word character that follows the text would start a new word. */
  predicate EndsWord(s: string) {
    s == "" || IsSpace(s[|s| - 1])
  }

  /** The words of a text, scanned from the left. */
  function Fields(s: string): (words: seq<string>)
    ensures !EndsWord(s) ==> words != []
  {
    if s == "" then []
    else
      var before, c := s[..|s| - 1], s[|s| - 1];
      var words := Fields(before);
      if IsSpace(c) then words
      else if EndsWord(before) then words + [[c]]
      else words[..|words| - 1] + [words[|words| - 1] + [c]]
  }

  predicate IsWord(word: string) {
    word != "" && forall i | 0 <= i < |word| :: !IsSpace(word[i])
  }

  function Dense(s: string): string {
    if s == "" then "" else Dense(s[..|s| - 1]) + (if IsSpace(s[|s| - 1]) then "" else [s[|s| - 1]])
  }

  /** The fields are words, and together the text without its spaces. */
  lemma {:induction false} FieldsAreWords(s: string)
    ensures forall k | 0 <= k < |Fields(s)| :: IsWord(Fields(s)[k])
    ensures Flatten(Fields(s)) == Dense(s)
  {
    if s != "" {
      var before, c := s[..|s| - 1], s[|s| - 1];
      FieldsAreWords(before);
      var words := Fields(before);
      if !IsSpace(c) {
        if EndsWord(before) {
          FlattenOne(words, [c]);
        } else {
          var init, last := words[..|words| - 1], words[|words| - 1];
          assert init + [last] == words;
          assert IsWord(last + [c]);
          FlattenOne(init, last);
          FlattenOne(init, last + [c]);
        }
      }
    }
  }

  function Join(words: seq<string>, separator: string): string {
    if words == [] then ""
    else
      var last := |words| - 1;
      if last == 0 then words[0] else Join(words[..last], separator) + separator + words[last]
  }

  function Normalized(text: string): string {
    Lower(Join(Fields(Trim(text)), " "))
  }

  predicate PrefixOf(normalized: string, i: nat)
    requires i < |PLACEHOLDERS|
  {
    normalized <= PLACEHOLDERS[i]
  }

  /** A text whose normal form can still grow into a known placeholder. */
  predicate MayBecome(text: string) {
    exists i :: 0 <= i < |PLACEHOLDERS| && PrefixOf(Normalized(text), i)
  }

  predicate IsPlaceholder(text: string) {
    var normalized := Normalized(text);
    normalized != "" && |normalized| <= MAX_PLACEHOLDER && normalized in PLACEHOLDERS
  }

  // ------------------------------------------------- prefixes go to prefixes

  lemma {:induction false} LeadingSpace(space: char, s: string)
    requires IsSpace(space)
    ensures Fields([space] + s) == Fields(s)
    decreases |s|
  {
    var more := [space] + s;
    if s == "" {
      assert more[..|more| - 1] == "";
    } else {
      var before := s[..|s| - 1];
      assert more[..|more| - 1] == [space] + before;
      LeadingSpace(space, before);
      assert EndsWord([space] + before) <==> EndsWord(before);
    }
  }

  lemma {:induction false} TrimLeftFields(s: string)
    ensures Fields(TrimLeft(s)) == Fields(s)
    decreases |s|
  {
    if s != "" && IsSpace(s[0]) {
      TrimLeftFields(s[1..]);
      LeadingSpace(s[0], s[1..]);
      assert [s[0]] + s[1..] == s;
    }
  }

  lemma {:induction false} TrimRightFields(s: string)
    ensures Fields(TrimRight(s)) == Fields(s)
    decreases |s|
  {
    if s != "" && IsSpace(s[|s| - 1]) {
      TrimRightFields(s[..|s| - 1]);
    }
  }

  lemma TrimFields(s: string)
    ensures Fields(Trim(s)) == Fields(s)
  {
    TrimLeftFields(s);
    TrimRightFields(TrimLeft(s));
  }

  lemma JoinGrows(words: seq<string>, word: string, c: char, separator: string)
    ensures Join(words + [word + [c]], separator) == Join(words + [word], separator) + [c]
    ensures Join(words + [word], separator) == if words == [] then word else Join(words, separator) + separator + word
  {
    hide Join;
    JoinSnoc(words, word, separator);
    JoinSnoc(words, word + [c], separator);
    if words != [] {
      assert Join(words, separator) + separator + (word + [c]) == (Join(words, separator) + separator + word) + [c];
    }
  }

  lemma JoinSnoc(words: seq<string>, word: string, separator: string)
    ensures Join(words + [word], separator) == if words == [] then word else Join(words, separator) + separator + word
  {
    assert (words + [word])[..|words|] == words;
  }

  lemma LowerAppend(a: string, b: string)
    ensures Lower(a + b) == Lower(a) + Lower(b)
  {
  }

  function Spaced(words: seq<string>): string {
    Lower(Join(words, " "))
  }

  lemma SpacedNewWord(words: seq<string>, c: char)
    ensures Spaced(words + [[c]]) == Spaced(words) + (if words == [] then [LowerChar(c)] else [' ', LowerChar(c)])
  {
    hide Join, Lower;
    JoinSnoc(words, [c], " ");
    LowerOne(c);
    if words == [] {
      JoinNothing();
      LowerNothing();
    } else {
      var joined := Join(words, " ");
      LowerAppend(joined + " ", [c]);
      LowerAppend(joined, " ");
      LowerOne(' ');
      assert Lower(joined) + [' '] + [LowerChar(c)] == Lower(joined) + [' ', LowerChar(c)];
    }
  }

  lemma SpacedLongerWord(words: seq<string>, c: char)
    requires words != []
    ensures Spaced(words[..|words| - 1] + [words[|words| - 1] + [c]]) == Spaced(words) + [LowerChar(c)]
  {
    hide Join, Lower;
    var init, last := words[..|words| - 1], words[|words| - 1];
    assert init + [last] == words;
    JoinGrows(init, last, c, " ");
    LowerAppend(Join(words, " "), [c]);
    LowerOne(c);
  }

  /** The normal form of a longer text: a word character extends it, behind one space
      if it starts a further word, and a space changes nothing. */
  lemma NormalizedSnoc(s: string, c: char)
    ensures Normalized(s + [c]) == Normalized(s) +
              (if IsSpace(c) then ""
               else if EndsWord(s) && Fields(s) != [] then [' ', LowerChar(c)]
               else [LowerChar(c)])
  {
    hide Join, Lower, Spaced, Trim;
    var more := s + [c];
    NormalizedSpaced(s);
    NormalizedSpaced(more);
    assert more[..|more| - 1] == s && more[|more| - 1] == c;
    if !IsSpace(c) {
      if EndsWord(s) {
        SpacedNewWord(Fields(s), c);
      } else {
        SpacedLongerWord(Fields(s), c);
      }
    }
  }

  lemma NormalizedSpaced(s: string)
    ensures Normalized(s) == Spaced(Fields(s))
  {
    hide Join, Lower, Trim;
    TrimFields(s);
  }

  lemma LowerOne(c: char)
    ensures Lower([c]) == [LowerChar(c)]
  {
  }

  lemma LowerNothing()
    ensures Lower("") == ""
  {
  }

  lemma JoinNothing()
    ensures Join([], " ") == ""
  {
  }

  /** Normalising maps prefixes to prefixes. */
  lemma {:induction false} NormalizedPrefix(a: string, b: string)
    requires a <= b
    ensures Normalized(a) <= Normalized(b)
    decreases |b|
  {
    hide Normalized;
    if a != b {
      var before := b[..|b| - 1];
      NormalizedPrefix(a, before);
      NormalizedSnoc(before, b[|b| - 1]);
      assert before + [b[|b| - 1]] == b;
    }
  }

  /** Once a text has diverged from every placeholder, so has every longer one. */
  lemma MayBecomePrefix(a: string, b: string)
    requires a <= b && MayBecome(b)
    ensures MayBecome(a)
  {
    hide Normalized;
    NormalizedPrefix(a, b);
    var i :| 0 <= i < |PLACEHOLDERS| && PrefixOf(Normalized(b), i);
    assert PrefixOf(Normalized(a), i);
  }

  /** The recogniser of whole messages is exact, and what it recognises is withheld
      throughout. */
  lemma PlaceholderMayBecome(text: string, prefix: string)
    requires prefix <= text
    ensures IsPlaceholder(text) <==> Normalized(text) in PLACEHOLDERS
    ensures IsPlaceholder(text) ==> MayBecome(prefix)
  {
    hide Normalized;
    assert |PLACEHOLDERS[0]| <= MAX_PLACEHOLDER && |PLACEHOLDERS[1]| <= MAX_PLACEHOLDER;
    assert PLACEHOLDERS[0] != "" && PLACEHOLDERS[1] != "";
    if IsPlaceholder(text) {
      var i :| 0 <= i < |PLACEHOLDERS| && Normalized(text) == PLACEHOLDERS[i];
      assert PrefixOf(Normalized(text), i);
      MayBecomePrefix(prefix, text);
    }
  }

  lemma {:induction false} OnlySpaces(s: string)
    requires forall k | 0 <= k < |s| :: IsSpace(s[k])
    ensures Normalized(s) == "" && Fields(s) == []
  {
    hide Normalized, IsSpace;
    if s == "" {
      NothingNormalized();
    } else {
      var before := s[..|s| - 1];
      OnlySpaces(before);
      NormalizedSnoc(before, s[|s| - 1]);
      assert before + [s[|s| - 1]] == s;
    }
  }

  lemma NothingNormalized()
    ensures Normalized("") == ""
  {
  }

  lemma FirstLetters()
    ensures forall p | p in PLACEHOLDERS :: p != "" && p[0] == 'w'
  {
    hide OVERLOADED;
    assert "we're"[0] == 'w' && "we are"[0] == 'w';
  }

  /** A text that begins with another letter than the placeholders do is let through. */
  lemma OtherTextPasses(text: string, i: nat)
    requires i < |text| && !IsSpace(text[i]) && LowerChar(text[i]) != 'w'
    requires forall k | 0 <= k < i :: IsSpace(text[k])
    ensures !MayBecome(text) && !IsPlaceholder(text)
  {
    hide Normalized, IsSpace, LowerChar;
    OnlySpaces(text[..i]);
    NormalizedSnoc(text[..i], text[i]);
    assert text[..i] + [text[i]] == text[..i + 1];
    NormalizedPrefix(text[..i + 1], text);
    assert Normalized(text)[0] == LowerChar(text[i]);
    FirstLetters();
  }

  // ------------------------------------------------------------------ the guard

  class StreamPlaceholderGuard {
    var pending: string
    var released: bool

    /** The input since the last reset, what of it went out, and whether it has ended. */
    ghost var input: string
    ghost var output: string
    ghost var ended: bool

    ghost predicate Valid()
      reads this
    {
      && input == output + pending
      && (released ==> pending == "")
      && (!released ==> output == "")
      && (if ended then released else released <==> !MayBecome(input))
    }

    constructor ()
      ensures Valid() && !ended && input == "" && output == ""
    {
      pending, released := "", false;
      input, output, ended := "", "", false;
      new;
      NothingMayBecome();
    }

    /** Withholds a chunk exactly while all of the input may still become a placeholder;
        as soon as it no longer may, everything withheld goes out. */
    method Feed(chunk: string) returns (text: string, withheld: bool)
      requires Valid()
      modifies this
      ensures Valid() && ended == old(ended) && input == old(input) + chunk && output == old(output) + text
      ensures output == if !ended && MayBecome(input) then "" else input
      ensures withheld <==> chunk != "" && !ended && MayBecome(input)
    {
      hide MayBecome, Normalized;
      ghost var before := input;
      input := input + chunk;
      if chunk == "" {
        assert input == before;
        return "", false;
      }
      if released {
        if !ended && MayBecome(input) {
          MayBecomePrefix(before, input);
        }
        output := output + chunk;
        return chunk, false;
      }
      pending := pending + chunk;
      assert pending == input;
      var matches := CouldMatch(pending);
      if matches {
        return "", true;
      }
      released := true;
      text := pending;
      pending := "";
      output := text;
      return text, false;
    }

    /** What is still withheld goes out at the end, unless it was a placeholder: then it
        is dropped, and the guard is as good as new. */
    method Finish(placeholder: bool) returns (text: string)
      requires Valid()
      modifies this
      ensures Valid() && input == output == old(output) + text
      ensures !placeholder || old(output) != "" ==> ended && input == old(input)
      ensures placeholder ==> text == ""
    {
      if released {
        ended := true;
        return "";
      }
      text := pending;
      pending := "";
      if placeholder {
        input, ended := "", false;
        NothingMayBecome();
        return "";
      }
      released, output, ended := true, text, true;
    }

    method Reset()
      modifies this
      ensures Valid() && !ended && input == "" && output == ""
    {
      pending, released := "", false;
      input, output, ended := "", "", false;
      NothingMayBecome();
    }
  }

  lemma NothingMayBecome()
    ensures MayBecome("")
  {
    assert Normalized("") == "";
    assert PrefixOf(Normalized(""), 0);
  }

  method CouldMatch(pending: string) returns (b: bool)
    ensures b <==> MayBecome(pending)
  {
    hide Normalized;
    var normalized := Normalized(pending);
    var i := 0;
    while i < |PLACEHOLDERS|
      invariant 0 <= i <= |PLACEHOLDERS|
      invariant forall k: nat | k < i :: !PrefixOf(normalized, k)
    {
      if normalized <= PLACEHOLDERS[i] {
        assert PrefixOf(normalized, i);
        return true;
      }
      i := i + 1;
    }
    return false;
  }

  /** What is out after some chunks is nothing while they may become a placeholder,
      and all of them from then on. */
  ghost predicate ReleasedBy(chunks: seq<string>, pieces: seq<string>, k: nat)
    requires k <= |chunks| && k <= |pieces|
  {
    Flatten(pieces[..k]) == if MayBecome(Flatten(chunks[..k])) then "" else Flatten(chunks[..k])
  }

  lemma ReleasedMore(chunks: seq<string>, pieces: seq<string>, text: string, k: nat)
    requires k <= |chunks| && k <= |pieces| && ReleasedBy(chunks, pieces, k)
    ensures ReleasedBy(chunks, pieces + [text], k)
  {
    assert (pieces + [text])[..k] == pieces[..k];
  }

  /** One more element at the end. */
  lemma FlattenOne(parts: seq<string>, part: string)
    ensures Flatten(parts + [part]) == Flatten(parts) + part
  {
    FlattenAppend(parts, [part]);
    assert Flatten([part]) == part;
  }

  /** A whole stream: however it is cut into chunks, all of it comes out in the end. */
  method GuardStream(chunks: seq<string>) returns (pieces: seq<string>, rest: string)
    ensures |pieces| == |chunks|
    ensures Flatten(pieces) + rest == Flatten(chunks)
    ensures forall k: nat | k <= |chunks| :: ReleasedBy(chunks, pieces, k)
  {
    hide MayBecome, Flatten, ReleasedBy;
    var guard := new StreamPlaceholderGuard();
    pieces := [];
    NothingReleased(chunks);
    for i := 0 to |chunks|
      invariant guard.Valid() && !guard.ended && |pieces| == i
      invariant guard.input == Flatten(chunks[..i]) && guard.output == Flatten(pieces)
      invariant forall k: nat | k <= i :: ReleasedBy(chunks, pieces, k)
    {
      ghost var before := pieces;
      var text, withheld := guard.Feed(chunks[i]);
      assert chunks[..i + 1] == chunks[..i] + [chunks[i]];
      FlattenOne(chunks[..i], chunks[i]);
      FlattenOne(pieces, text);
      pieces := pieces + [text];
      forall k: nat | k <= i + 1 ensures ReleasedBy(chunks, pieces, k) {
        if k <= i {
          ReleasedMore(chunks, before, text, k);
        } else {
          assert pieces[..k] == pieces;
          ReleasedNow(chunks, pieces, k);
        }
      }
    }
    rest := guard.Finish(false);
    assert chunks[..|chunks|] == chunks;
  }

  lemma ReleasedNow(chunks: seq<string>, pieces: seq<string>, k: nat)
    requires k <= |chunks| && k <= |pieces|
    requires Flatten(pieces[..k]) == if MayBecome(Flatten(chunks[..k])) then "" else Flatten(chunks[..k])
    ensures ReleasedBy(chunks, pieces, k)
  {
  }

  lemma NothingReleased(chunks: seq<string>)
    ensures ReleasedBy(chunks, [], 0)
    ensures Flatten(chunks[..0]) == "" && Flatten<char>([]) == ""
  {
    hide MayBecome;
    NothingMayBecome();
    assert chunks[..0] == [];
  }
}
