/**
 Compaction of a text to a number of bytes: a head and a tail around a marker that says
 how many bytes were taken out, never cutting a character.
 */
module Compaction {
  import opened Text

  const MARKER_RESERVE := 64
  const MARKER_OPENS := "\n... [truncated "
  const MARKER_CLOSES := " bytes] ...\n"
  const INT_RANGE := 0x8000_0000_0000_0000

  /** The longest prefix of at most n bytes. */
  function PrefixWithin(s: string, n: nat): (r: string)
    ensures r <= s && ByteLength(r) <= n
    ensures r != s ==> |r| < |s| && ByteLength(r) + CharBytes(s[|r|]) > n
  {
    if s == "" || CharBytes(s[0]) > n then ""
    else [s[0]] + PrefixWithin(s[1..], n - CharBytes(s[0]))
  }

  /** The longest suffix of at most n bytes. */
  function SuffixWithin(s: string, n: nat): (r: string)
    ensures |r| <= |s| && r == s[|s| - |r|..] && ByteLength(r) <= n
    ensures r != s ==> |r| < |s| && ByteLength(r) + CharBytes(s[|s| - |r| - 1]) > n
    decreases |s|
  {
    var last := |s| - 1;
    if s == "" || CharBytes(s[last]) > n then ""
    else
      var rest := SuffixWithin(s[..last], n - CharBytes(s[last]));
      ByteLengthAppend(rest, [s[last]]);
      rest + [s[last]]
  }

  function Decimal(n: nat): string {
    (if n < 10 then "" else Decimal(n / 10)) + ['0' + (n % 10) as char]
  }

  /** The marker; the count is a 64-bit integer. */
  function Marker(omitted: int): string {
    MARKER_OPENS + Decimal(omitted % INT_RANGE) + MARKER_CLOSES
  }

  lemma NonEmptyBytes(s: string)
    requires s != ""
    ensures ByteLength(s) > 0
  {
  }

  /** The tail gives way, a character at a time, until all fits. */
  function Shrunk(tail: string, room: int): (r: string)
    ensures |r| <= |tail| && r == tail[|tail| - |r|..]
    ensures ByteLength(tail) <= room ==> r == tail
    decreases |tail|
  {
    hide SuffixWithin, CharBytes, ByteLength;
    if ByteLength(tail) <= room || tail == "" then tail
    else
      NonEmptyBytes(tail);
      var shorter := SuffixWithin(tail, ByteLength(tail) - 1);
      assert |shorter| < |tail|;
      Shrunk(shorter, room)
  }

  function HeadOf(v: string, limit: nat): string
    requires limit > MARKER_RESERVE
  {
    PrefixWithin(v, (limit - MARKER_RESERVE) / 3)
  }

  function TailOf(v: string, limit: nat): string
    requires limit > MARKER_RESERVE
  {
    SuffixWithin(v, limit - MARKER_RESERVE - (limit - MARKER_RESERVE) / 3)
  }

  function MarkerOf(v: string, limit: nat): string
    requires limit > MARKER_RESERVE
  {
    Marker(ByteLength(v) - ByteLength(HeadOf(v, limit)) - ByteLength(TailOf(v, limit)))
  }

  function Cut(v: string, limit: nat): string {
    if limit <= MARKER_RESERVE then PrefixWithin(v, limit)
    else
      var head, marker := HeadOf(v, limit), MarkerOf(v, limit);
      head + marker + Shrunk(TailOf(v, limit), limit - ByteLength(head) - ByteLength(marker))
  }

  function Compact(value: string, limit: nat): string {
    var v := Trim(value);
    if limit < 1 || ByteLength(v) <= limit then v else Cut(v, limit)
  }

  // ------------------------------------------------------------------ stability

  function Power(d: nat): nat {
    if d == 0 then 1 else 10 * Power(d - 1)
  }

  lemma {:induction false} DecimalShort(n: nat, d: nat)
    requires 1 <= d && n < Power(d)
    ensures ByteLength(Decimal(n)) <= d
    decreases d
  {
    var digit := '0' + (n % 10) as char;
    assert ByteLength([digit]) == 1;
    if n < 10 {
      assert Decimal(n) == [digit];
    } else {
      DecimalShort(n / 10, d - 1);
      ByteLengthAppend(Decimal(n / 10), [digit]);
    }
  }

  lemma {:induction false} AsciiLength(s: string)
    requires forall i | 0 <= i < |s| :: s[i] < '\U{80}'
    ensures ByteLength(s) == |s|
  {
    if s != "" {
      AsciiLength(s[1..]);
    }
  }

  lemma PowerOf19()
    ensures Power(19) == 10_000_000_000_000_000_000
  {
    assert Power(10) == 10_000_000_000;
  }

  lemma MarkerShort(omitted: int)
    ensures ByteLength(Marker(omitted)) <= MARKER_RESERVE
  {
    hide Decimal, Power, ByteLength;
    var count := Decimal(omitted % INT_RANGE);
    PowerOf19();
    DecimalShort(omitted % INT_RANGE, 19);
    AsciiLength(MARKER_OPENS);
    AsciiLength(MARKER_CLOSES);
    ByteLengthAppend(MARKER_OPENS, count);
    ByteLengthAppend(MARKER_OPENS + count, MARKER_CLOSES);
  }

  lemma CutBytes(v: string, limit: nat)
    requires limit >= MARKER_RESERVE + 12 && ByteLength(v) > limit
    ensures var head, marker, tail := HeadOf(v, limit), MarkerOf(v, limit), TailOf(v, limit);
            && Cut(v, limit) == head + marker + tail && ByteLength(Cut(v, limit)) <= limit
            && head != "" && head <= v && tail != "" && |tail| <= |v| && tail == v[|v| - |tail|..]
  {
    hide Marker, PrefixWithin, SuffixWithin, Shrunk, ByteLength, CharBytes;
    var head, marker, tail := HeadOf(v, limit), MarkerOf(v, limit), TailOf(v, limit);
    MarkerShort(ByteLength(v) - ByteLength(head) - ByteLength(tail));
    ByteLengthAppend(head, marker);
    ByteLengthAppend(head + marker, tail);
    NoBytes();
  }

  lemma TrimmedEnds(v: string, head: string, middle: string, tail: string)
    requires Trimmed(v) && head != "" && tail != ""
    requires head <= v && |tail| <= |v| && tail == v[|v| - |tail|..]
    ensures Trimmed(head + middle + tail) && head + middle + tail != ""
  {
    hide IsSpace;
    var c := head + middle + tail;
    assert c[0] == v[0] && c[|c| - 1] == tail[|tail| - 1] == v[|v| - 1];
  }

  /** Where the head and the tail have room for a character each, compacting trims,
      stays within the limit, never empties a text and leaves a compacted text alone. */
  lemma CompactStable(value: string, limit: nat)
    requires limit >= MARKER_RESERVE + 12
    ensures var c := Compact(value, limit);
            && ByteLength(c) <= limit && Trimmed(c) && Compact(c, limit) == c
            && (c == "" <==> Trim(value) == "")
  {
    hide Trim, Trimmed, ByteLength, Cut, HeadOf, MarkerOf, TailOf;
    var v := Trim(value);
    if ByteLength(v) > limit {
      CutBytes(v, limit);
      TrimmedEnds(v, HeadOf(v, limit), MarkerOf(v, limit), TailOf(v, limit));
      assert v != "" by {
        NoBytes();
      }
    }
    TrimOfTrimmed(Compact(value, limit));
  }

  lemma NoBytes()
    ensures ByteLength("") == 0
  {
  }

  /** Below that a cut may end in a space, and then compacting again takes it off. */
  lemma CompactUnstable()
    ensures Compact("a b", 2) == "a " && Compact("a ", 2) == "a"
  {
    assert Trim("a b") == "a b" && Trim("a ") == "a";
  }

  // ------------------------------------------------------- what a short text says

  predicate IsNumeral(s: string) {
    s != "" && (forall i | 0 <= i < |s| :: '0' <= s[i] <= '9') && (s[0] == '0' ==> |s| == 1)
  }

  function NumberOf(s: string): nat
    requires forall i | 0 <= i < |s| :: '0' <= s[i] <= '9'
  {
    if s == "" then 0 else 10 * NumberOf(s[..|s| - 1]) + (s[|s| - 1] - '0') as int
  }

  lemma DigitAdded(s: string, d: nat)
    requires d < 10 && forall i | 0 <= i < |s| :: '0' <= s[i] <= '9'
    ensures var more := s + ['0' + d as char];
            && (forall i | 0 <= i < |more| :: '0' <= more[i] <= '9')
            && NumberOf(more) == 10 * NumberOf(s) + d
  {
    var more := s + ['0' + d as char];
    assert more[..|more| - 1] == s;
  }

  lemma {:induction false} DecimalReads(n: nat)
    ensures IsNumeral(Decimal(n)) && NumberOf(Decimal(n)) == n
    ensures n > 0 ==> Decimal(n)[0] != '0'
  {
    hide NumberOf;
    if n >= 10 {
      DecimalReads(n / 10);
      DigitAdded(Decimal(n / 10), n % 10);
    } else {
      DigitAdded("", n);
      NothingRead();
      assert Decimal(n) == "" + ['0' + n as char];
    }
  }

  lemma NothingRead()
    ensures NumberOf("") == 0
  {
  }

  /** The first h and the last t characters of v around the number of bytes in between;
      one character more at either end would exceed its share of the limit. */
  ghost predicate CutAround(v: string, short: string, limit: nat, h: nat, t: nat, count: string)
    requires limit > 64
  {
    && h + t <= |v| && IsNumeral(count)
    && short == v[..h] + "\n... [truncated " + count + " bytes] ...\n" + v[|v| - t..]
    && NumberOf(count) == ByteLength(v) - ByteLength(v[..h]) - ByteLength(v[|v| - t..])
    && h < |v| && ByteLength(v[..h]) <= (limit - 64) / 3 < ByteLength(v[..h + 1])
    && t < |v| && ByteLength(v[|v| - t..]) <= limit - 64 - (limit - 64) / 3 < ByteLength(v[|v| - t - 1..])
  }

  /** The short form of a text: trimmed, and cut in the middle if it is still too long. */
  ghost predicate ShortForm(raw: string, short: string, limit: nat) {
    if ByteLength(Trim(raw)) <= limit then short == Trim(raw)
    else limit > 64 && exists h, t, count :: CutAround(Trim(raw), short, limit, h, t, count)
  }

  lemma {:induction false} PartBytes(v: string, i: nat, j: nat)
    requires i <= j <= |v|
    ensures ByteLength(v) == ByteLength(v[..i]) + ByteLength(v[i..j]) + ByteLength(v[j..])
  {
    assert v[..i] + v[i..j] + v[j..] == v;
    ByteLengthAppend(v[..i], v[i..j]);
    ByteLengthAppend(v[..i] + v[i..j], v[j..]);
  }

  lemma PartsCover(v: string, h: nat, t: nat)
    requires h <= |v| && t <= |v| && h + t >= |v|
    ensures ByteLength(v[..h]) + ByteLength(v[|v| - t..]) >= ByteLength(v)
  {
    PartBytes(v, |v| - t, |v| - t);
    PartBytes(v[..h], |v| - t, |v| - t);
    assert v[..h][..|v| - t] == v[..|v| - t];
  }

  /** Head and tail do not meet in a text that is too long. */
  lemma PartsApart(v: string, h: nat, t: nat)
    requires h <= |v| && t <= |v| && ByteLength(v[..h]) + ByteLength(v[|v| - t..]) < ByteLength(v)
    ensures h + t < |v|
  {
    if h + t >= |v| {
      PartsCover(v, h, t);
    }
  }

  lemma OneMore(v: string, i: nat)
    requires i < |v|
    ensures ByteLength(v[..i + 1]) == ByteLength(v[..i]) + CharBytes(v[i])
    ensures ByteLength(v[i..]) == CharBytes(v[i]) + ByteLength(v[i + 1..])
  {
    assert v[..i + 1] == v[..i] + [v[i]] && v[i..] == [v[i]] + v[i + 1..];
    ByteLengthAppend(v[..i], [v[i]]);
    ByteLengthAppend([v[i]], v[i + 1..]);
    assert [v[i]][1..] == "";
  }

  /** The head takes as many characters as its share of the limit allows. */
  lemma HeadFills(v: string, limit: nat)
    requires limit > MARKER_RESERVE && ByteLength(v) > limit
    ensures var h := |HeadOf(v, limit)|;
            && h < |v| && HeadOf(v, limit) == v[..h]
            && ByteLength(v[..h]) <= (limit - 64) / 3 < ByteLength(v[..h + 1])
  {
    hide ByteLength, CharBytes;
    var head := HeadOf(v, limit);
    assert head == v[..|head|];
    OneMore(v, |head|);
  }

  /** So does the tail. */
  lemma TailFills(v: string, limit: nat)
    requires limit > MARKER_RESERVE && ByteLength(v) > limit
    ensures var t := |TailOf(v, limit)|;
            && t < |v| && TailOf(v, limit) == v[|v| - t..]
            && ByteLength(v[|v| - t..]) <= limit - 64 - (limit - 64) / 3 < ByteLength(v[|v| - t - 1..])
  {
    hide ByteLength, CharBytes;
    var tail := TailOf(v, limit);
    OneMore(v, |v| - |tail| - 1);
  }

  /** Compacting to 76 bytes or more gives the short form, for texts whose length is a
      64-bit integer. */
  lemma CompactShortens(raw: string, limit: nat)
    requires limit >= MARKER_RESERVE + 12 && ByteLength(Trim(raw)) < INT_RANGE
    ensures ShortForm(raw, Compact(raw, limit), limit)
  {
    hide Trim, Cut, ByteLength, CutAround, HeadOf, TailOf;
    var v := Trim(raw);
    if ByteLength(v) > limit {
      CutShortens(v, limit);
    }
  }

  lemma CutShortens(v: string, limit: nat)
    requires limit >= MARKER_RESERVE + 12 && limit < ByteLength(v) < INT_RANGE
    ensures exists h, t, count :: CutAround(v, Cut(v, limit), limit, h, t, count)
  {
    hide Cut, ByteLength, CutAround, Decimal, HeadOf, TailOf, MarkerOf, IsNumeral, NumberOf;
    var h, t := |HeadOf(v, limit)|, |TailOf(v, limit)|;
    HeadFills(v, limit);
    TailFills(v, limit);
    PartsApart(v, h, t);
    PartBytes(v, h, |v| - t);
    var omitted := ByteLength(v[h..|v| - t]);
    CutIsParts(v, limit);
    MarkerReads(v, limit, omitted);
    DecimalReads(omitted);
    ShortCut(v, limit, h, t, Decimal(omitted));
  }

  lemma CutIsParts(v: string, limit: nat)
    requires limit >= MARKER_RESERVE + 12 && ByteLength(v) > limit
    ensures Cut(v, limit) == HeadOf(v, limit) + MarkerOf(v, limit) + TailOf(v, limit)
  {
    hide Cut, ByteLength, HeadOf, TailOf, MarkerOf;
    CutBytes(v, limit);
  }

  lemma MarkerReads(v: string, limit: nat, omitted: nat)
    requires limit > MARKER_RESERVE && omitted < INT_RANGE
    requires ByteLength(v) - ByteLength(HeadOf(v, limit)) - ByteLength(TailOf(v, limit)) == omitted
    ensures MarkerOf(v, limit) == "\n... [truncated " + Decimal(omitted) + " bytes] ...\n"
  {
    hide ByteLength, HeadOf, TailOf, Decimal;
  }

  lemma ShortCut(v: string, limit: nat, h: nat, t: nat, count: string)
    requires limit >= 76 && h + t <= |v| && h < |v| && t < |v| && IsNumeral(count)
    requires NumberOf(count) == ByteLength(v) - ByteLength(v[..h]) - ByteLength(v[|v| - t..])
    requires ByteLength(v[..h]) <= (limit - 64) / 3 < ByteLength(v[..h + 1])
    requires ByteLength(v[|v| - t..]) <= limit - 64 - (limit - 64) / 3 < ByteLength(v[|v| - t - 1..])
    requires Cut(v, limit) == v[..h] + ("\n... [truncated " + count + " bytes] ...\n") + v[|v| - t..]
    ensures CutAround(v, Cut(v, limit), limit, h, t, count)
  {
    hide ByteLength, NumberOf, IsNumeral, Cut;
    var left, right := "\n... [truncated ", " bytes] ...\n";
    Regroup(v[..h], left, count, right, v[|v| - t..]);
  }

  lemma Regroup(a: string, b: string, c: string, d: string, e: string)
    ensures a + (b + c + d) + e == a + b + c + d + e
  {
  }

  method CompactPortableUTF8(value: string, limit: nat) returns (r: string)
    ensures r == Compact(value, limit)
  {
    hide Trim, Cut, ByteLength;
    var v := Trim(value);
    if limit < 1 || ByteLength(v) <= limit {
      return v;
    }
    r := CutText(v, limit);
  }

  method CutText(v: string, limit: nat) returns (r: string)
    ensures r == Cut(v, limit)
  {
    hide HeadOf, TailOf, MarkerOf, ByteLength, Shrunk, PrefixWithin;
    if limit <= MARKER_RESERVE {
      return PrefixWithin(v, limit);
    }
    var head, tail, marker := Pieces(v, limit);
    tail := ShrinkTail(tail, limit - ByteLength(head) - ByteLength(marker));
    return head + marker + tail;
  }

  method Pieces(v: string, limit: nat) returns (head: string, tail: string, marker: string)
    requires limit > MARKER_RESERVE
    ensures head == HeadOf(v, limit) && tail == TailOf(v, limit) && marker == MarkerOf(v, limit)
  {
    hide ByteLength, Marker, PrefixWithin, SuffixWithin;
    var headBudget := (limit - MARKER_RESERVE) / 3;
    var tailBudget := limit - MARKER_RESERVE - headBudget;
    head, tail := PrefixWithin(v, headBudget), SuffixWithin(v, tailBudget);
    marker := Marker(ByteLength(v) - ByteLength(head) - ByteLength(tail));
  }

  method ShrinkTail(tail: string, room: int) returns (r: string)
    ensures r == Shrunk(tail, room)
  {
    hide SuffixWithin;
    r := tail;
    while ByteLength(r) > room && |r| > 0
      invariant Shrunk(r, room) == Shrunk(tail, room)
      decreases |r|
    {
      r := SuffixWithin(r, ByteLength(r) - 1);
    }
  }
}
