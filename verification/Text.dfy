/** Text helpers over Unicode scalar values: trimming, lower-casing and byte lengths. */
module Text {

  /** The characters that Unicode calls white space. */
  predicate IsSpace(c: char) {
    || c in {' ', '\t', '\n', '\r', '\U{0B}', '\U{0C}', '\U{85}', '\U{A0}', '\U{1680}'}
    || '\U{2000}' <= c <= '\U{200A}'
    || c in {'\U{2028}', '\U{2029}', '\U{202F}', '\U{205F}', '\U{3000}'}
  }

  /** Lower case as far as it can yield an ASCII letter: besides the capitals these are
      the dotted capital I and the Kelvin sign. Other letters are left alone, which no
      comparison with an ASCII word can tell. */
  function LowerChar(c: char): char {
    if 'A' <= c <= 'Z' then (c as int + 32) as char
    else if c == '\U{130}' then 'i'
    else if c == '\U{212A}' then 'k'
    else c
  }

  /** The bytes of a character in UTF-8. */
  function CharBytes(c: char): (n: nat)
    ensures 1 <= n <= 4
  {
    if c < '\U{80}' then 1 else if c < '\U{800}' then 2 else if c < '\U{10000}' then 3 else 4
  }

  function ByteLength(s: string): nat {
    if s == "" then 0 else CharBytes(s[0]) + ByteLength(s[1..])
  }

  lemma {:induction false} ByteLengthAppend(a: string, b: string)
    ensures ByteLength(a + b) == ByteLength(a) + ByteLength(b)
  {
    if a == "" {
      assert a + b == b;
    } else {
      assert (a + b)[1..] == a[1..] + b;
      ByteLengthAppend(a[1..], b);
    }
  }

  function Lower(s: string): (r: string)
    ensures |r| == |s|
  {
    seq(|s|, i requires 0 <= i < |s| => LowerChar(s[i]))
  }

  function TrimLeft(s: string): (r: string)
    ensures r == "" || !IsSpace(r[0])
  {
    if s != "" && IsSpace(s[0]) then TrimLeft(s[1..]) else s
  }

  function TrimRight(s: string): (r: string)
    ensures r <= s
    ensures r == "" || !IsSpace(r[|r| - 1])
  {
    if s != "" && IsSpace(s[|s| - 1]) then TrimRight(s[..|s| - 1]) else s
  }

  function Trim(s: string): (r: string)
    ensures Trimmed(r)
  {
    TrimRight(TrimLeft(s))
  }

  predicate Trimmed(s: string) {
    s == "" || (!IsSpace(s[0]) && !IsSpace(s[|s| - 1]))
  }

  lemma TrimOfTrimmed(s: string)
    requires Trimmed(s)
    ensures Trim(s) == s
  {
  }

  /** The case- and space-insensitive form in which roles are compared. */
  function Canonical(s: string): string {
    Lower(Trim(s))
  }

  lemma {:induction false} ByteLengthAtMost(s: string)
    ensures ByteLength(s) <= 4 * |s|
  {
    if s != "" {
      ByteLengthAtMost(s[1..]);
    }
  }

  predicate IsLower(s: string) {
    forall i | 0 <= i < |s| :: !IsSpace(s[i]) && LowerChar(s[i]) == s[i]
  }

  /** A word without spaces or capitals is its own canonical form. */
  lemma CanonicalOfWord(s: string)
    requires IsLower(s)
    ensures Canonical(s) == s
  {
    assert TrimLeft(s) == s;
    assert TrimRight(s) == s;
    assert forall i | 0 <= i < |s| :: Lower(s)[i] == s[i];
  }

  // -------------------------------------------------------------------- meanings

  /** Where the lengths of characters in UTF-8 change (RFC 3629, section 3). */
  lemma CharacterLengths()
    ensures ByteLength("\U{7F}") == 1 && ByteLength("\U{80}") == 2
    ensures ByteLength("\U{7FF}") == 2 && ByteLength("\U{800}") == 3
    ensures ByteLength("\U{FFFF}") == 3 && ByteLength("\U{10000}") == 4 && ByteLength("\U{10FFFF}") == 4
  {
  }

  /** Trimming takes off the spaces at both ends, and nothing else. */
  lemma TrimStrips(s: string) returns (i: nat, j: nat)
    ensures i <= j <= |s| && Trim(s) == s[i..j]
    ensures forall k | 0 <= k < |s| && (k < i || j <= k) :: IsSpace(s[k])
  {
    hide IsSpace;
    i := LeftStrips(s);
    j := i + |TrimRight(s[i..])|;
    RightStrips(s[i..]);
    assert forall k | j <= k < |s| :: s[k] == s[i..][k - i];
    assert s[i..][..j - i] == s[i..j];
  }

  lemma {:induction false} LeftStrips(s: string) returns (i: nat)
    ensures i <= |s| && TrimLeft(s) == s[i..] && forall k | 0 <= k < i :: IsSpace(s[k])
  {
    hide IsSpace;
    i := 0;
    if s != "" && IsSpace(s[0]) {
      var rest := LeftStrips(s[1..]);
      i := rest + 1;
      assert forall k | 1 <= k < i :: s[k] == s[1..][k - 1];
      assert s[1..][rest..] == s[i..];
    }
  }

  lemma {:induction false} RightStrips(s: string)
    ensures TrimRight(s) <= s && forall k | |TrimRight(s)| <= k < |s| :: IsSpace(s[k])
  {
    hide IsSpace;
    if s != "" && IsSpace(s[|s| - 1]) {
      RightStrips(s[..|s| - 1]);
    }
  }

  predicate SameLetter(c: char, small: char) {
    c == small || ('a' <= small <= 'z' && (c as int) + 32 == small as int)
  }

  /** Case and spaces around a lower-case word do not matter. */
  lemma CanonicalOfCased(before: string, word: string, after: string, small: string)
    requires |word| == |small| > 0 && forall i | 0 <= i < |word| :: SameLetter(word[i], small[i])
    requires forall i | 0 <= i < |small| :: 'a' <= small[i] <= 'z'
    requires (forall c | c in before :: IsSpace(c)) && (forall c | c in after :: IsSpace(c))
    ensures Canonical(before + word + after) == small
  {
    var s := before + word + after;
    var i, j := TrimStrips(s);
    LetterInside(before, word, after, i, j, 0);
    LetterInside(before, word, after, i, j, |word| - 1);
    TrimmedWord(before, word, after, i, j);
    assert Trim(s) == word;
    assert forall k | 0 <= k < |word| :: Lower(word)[k] == small[k];
  }

  lemma LetterInside(before: string, word: string, after: string, i: nat, j: nat, k: nat)
    requires k < |word| && !IsSpace(word[k])
    requires var s := before + word + after;
             i <= j <= |s| && forall m | 0 <= m < |s| && (m < i || j <= m) :: IsSpace(s[m])
    ensures i <= |before| + k < j
  {
    var s := before + word + after;
    assert s[|before| + k] == word[k];
  }

  lemma TrimmedWord(before: string, word: string, after: string, i: nat, j: nat)
    requires (forall c | c in before :: IsSpace(c)) && (forall c | c in after :: IsSpace(c))
    requires var s := before + word + after;
             word != "" && i <= |before| && |before| + |word| <= j <= |s| && Trim(s) == s[i..j]
    ensures i == |before| && j == |before| + |word| && Trim(before + word + after) == word
  {
    hide Trim, IsSpace;
    var s := before + word + after;
    assert Trimmed(Trim(s));
    assert s[i..j][0] == s[i] && s[i..j][j - i - 1] == s[j - 1];
    forall k | 0 <= k < |before| ensures IsSpace(s[k]) {
      assert s[k] == before[k] && before[k] in before;
    }
    forall k | |before| + |word| <= k < |s| ensures IsSpace(s[k]) {
      assert s[k] == after[k - |before| - |word|] && after[k - |before| - |word|] in after;
    }
    assert s[|before|..|before| + |word|] == word;
  }
}
