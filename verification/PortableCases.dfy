/**
 What sanitising, bounding and merging make of a transcript, case by case, in terms of the
 messages themselves and with the limits spelt out.
 */
module PortableCases {
  import opened Chat
  import opened Compaction
  import opened Portable
  import Text

  // ------------------------------------------------------------------ one message

  predicate ShortText(s: string, limit: nat) {
    Text.Trimmed(s) && Text.ByteLength(s) <= limit
  }

  predicate ShortCallTexts(c: ToolCall) {
    c.id != "" && ShortText(c.id, 256) && c.name != "" && ShortText(c.name, 256) && ShortText(c.arguments, 16384)
  }

  /** What a message must be like to come out of sanitising as it went in. */
  predicate CleanMessage(m: Message) {
    && m.role in {"system", "developer", "user", "assistant", "tool"}
    && ShortText(m.name, 256)
    && (if m.role == "tool" then ShortText(m.toolCallID, 256) else m.toolCallID == "")
    && (m.content.Some? ==> m.content.value != "" && ShortText(m.content.value, 65536))
    && (if m.role == "assistant" then |m.toolCalls| <= 64 && forall c | c in m.toolCalls :: ShortCallTexts(c)
        else m.toolCalls == [])
    && (m.role == "tool" || m.content.Some? || m.toolCalls != [])
  }

  lemma CompactFixed(s: string, limit: nat)
    requires limit >= MARKER_RESERVE + 12
    ensures Compact(s, limit) == s <==> ShortText(s, limit)
  {
    hide Text.Trim, Text.Trimmed, Text.ByteLength, Cut;
    CompactStable(s, limit);
    if Text.Trimmed(s) {
      Text.TrimOfTrimmed(s);
    }
  }

  lemma CallFixed(c: ToolCall)
    ensures c.id != "" && c.name != "" && SanitizeCall(c) == c <==> ShortCallTexts(c)
  {
    hide Compact, ShortText;
    CompactFixed(c.id, MAX_NAME_BYTES);
    CompactFixed(c.name, MAX_NAME_BYTES);
    CompactFixed(c.arguments, MAX_ARGUMENT_BYTES);
  }

  lemma {:induction false} CallsFixed(calls: seq<ToolCall>)
    ensures SanitizeCalls(calls) == calls <==> forall c | c in calls :: ShortCallTexts(c)
  {
    hide ShortCallTexts, SanitizeCall;
    if calls != [] {
      CallFixed(calls[0]);
      CallsFixed(calls[1..]);
      assert calls == [calls[0]] + calls[1..];
      if SanitizeCalls(calls) == calls {
        assert calls[1..] == SanitizeCalls(calls)[1..];
      }
    }
  }

  lemma ContentFixed(content: Option<string>)
    ensures SanitizeContent(content) == content <==>
            (content.Some? ==> content.value != "" && ShortText(content.value, 65536))
  {
    hide Compact, Text.Trim;
    if content.Some? {
      CompactFixed(content.value, MAX_CONTENT_BYTES);
      CompactStable(Text.Trim(content.value), MAX_CONTENT_BYTES);
      Text.TrimOfTrimmed(Text.Trim(content.value));
      if Text.Trimmed(content.value) {
        Text.TrimOfTrimmed(content.value);
      }
    }
  }

  /** Sanitising leaves a message as it is exactly when it is within all limits. */
  lemma SanitizeFixedIff(m: Message)
    ensures Sanitize(m) == Some(m) <==> CleanMessage(m)
  {
    hide Compact, ShortText, SanitizeCalls, SanitizeContent, ShortCallTexts, Text.Canonical;
    CompactFixed(m.name, MAX_NAME_BYTES);
    CompactFixed(m.toolCallID, MAX_NAME_BYTES);
    ContentFixed(m.content);
    CallsFixed(FirstCalls(m.toolCalls));
    assert |m.toolCalls| <= 64 ==> FirstCalls(m.toolCalls) == m.toolCalls;
    if m.role in ROLES {
      RolesAreCanonical(m.role);
    }
  }

  // ------------------------------------------------------- what a message becomes

  predicate Sizable(s: string) {
    Text.ByteLength(Text.Trim(s)) < 0x8000_0000_0000_0000
  }

  predicate SizableTexts(m: Message) {
    && Sizable(m.name) && Sizable(m.toolCallID) && (m.content.Some? ==> Sizable(m.content.value))
    && forall c | c in m.toolCalls :: Sizable(c.id) && Sizable(c.name) && Sizable(c.arguments)
  }

  /** Only calls with an id and a name are kept. */
  predicate Named(c: ToolCall) {
    Text.Trim(c.id) != "" && Text.Trim(c.name) != ""
  }

  ghost predicate ShortCallOf(c: ToolCall, short: ToolCall) {
    ShortForm(c.id, short.id, 256) && ShortForm(c.name, short.name, 256)
    && ShortForm(c.arguments, short.arguments, 16384)
  }

  /** The elements that are kept, in order. */
  function Only<T>(xs: seq<T>, keep: T -> bool): seq<T> {
    if xs == [] then [] else (if keep(xs[0]) then [xs[0]] else []) + Only(xs[1..], keep)
  }

  /** The kept calls are the named ones, each in its short form. */
  ghost predicate ShortCallsOf(calls: seq<ToolCall>, kept: seq<ToolCall>) {
    var named := Only(calls, Named);
    |kept| == |named| && forall i | 0 <= i < |kept| :: ShortCallOf(named[i], kept[i])
  }

  function First64(calls: seq<ToolCall>): seq<ToolCall> {
    if |calls| > 64 then calls[..64] else calls
  }

  ghost predicate CleanedOf(m: Message, c: Message) {
    && c.role == Text.Canonical(m.role) && ShortForm(m.name, c.name, 256)
    && (if c.role == "tool" then ShortForm(m.toolCallID, c.toolCallID, 256) else c.toolCallID == "")
    && (if m.content.Some? && Text.Trim(m.content.value) != ""
        then c.content.Some? && ShortForm(m.content.value, c.content.value, 65536) else c.content.None?)
    && (if c.role == "assistant"
        then ShortCallsOf(First64(m.toolCalls), c.toolCalls)
        else c.toolCalls == [])
  }

  /** A message survives exactly if its role is known and it says something: a tool result
      always, any other by its text, an assistant also by a named call among the first 64. */
  predicate Speaks(m: Message) {
    var role := Text.Canonical(m.role);
    && role in {"system", "developer", "user", "assistant", "tool"}
    && (|| role == "tool" || (m.content.Some? && Text.Trim(m.content.value) != "")
        || (role == "assistant" && exists j :: 0 <= j < |m.toolCalls| && j < 64 && Named(m.toolCalls[j])))
  }

  lemma CallShortens(c: ToolCall)
    requires Sizable(c.id) && Sizable(c.name) && Sizable(c.arguments)
    ensures ShortCallOf(c, SanitizeCall(c))
    ensures SanitizeCall(c).id != "" && SanitizeCall(c).name != "" <==> Named(c)
  {
    hide Compact, ShortForm, Text.Trim;
    CompactShortens(c.id, MAX_NAME_BYTES);
    CompactShortens(c.name, MAX_NAME_BYTES);
    CompactShortens(c.arguments, MAX_ARGUMENT_BYTES);
    CompactStable(c.id, MAX_NAME_BYTES);
    CompactStable(c.name, MAX_NAME_BYTES);
  }

  lemma {:induction false} CallsShorten(calls: seq<ToolCall>)
    requires forall c | c in calls :: Sizable(c.id) && Sizable(c.name) && Sizable(c.arguments)
    ensures ShortCallsOf(calls, SanitizeCalls(calls))
  {
    hide SanitizeCall, ShortCallOf, Named, Sizable;
    if calls != [] {
      CallsShorten(calls[1..]);
      CallShortens(calls[0]);
    }
  }

  lemma {:induction false} SomeKept<T>(xs: seq<T>, keep: T -> bool)
    ensures Only(xs, keep) != [] <==> exists j :: 0 <= j < |xs| && keep(xs[j])
  {
    if xs != [] {
      SomeKept(xs[1..], keep);
      assert forall j | 1 <= j < |xs| :: xs[j] == xs[1..][j - 1];
      if j :| 0 <= j < |xs[1..]| && keep(xs[1..][j]) {
        assert keep(xs[j + 1]);
      }
    }
  }

  lemma ContentShortens(content: Option<string>)
    requires content.Some? ==> Sizable(content.value)
    ensures var c := SanitizeContent(content);
            if content.Some? && Text.Trim(content.value) != ""
            then c.Some? && ShortForm(content.value, c.value, 65536) else c.None?
  {
    hide Compact, CutAround, Text.Trim, Text.Trimmed;
    if content.Some? && Text.Trim(content.value) != "" {
      Text.TrimOfTrimmed(Text.Trim(content.value));
      CompactShortens(Text.Trim(content.value), MAX_CONTENT_BYTES);
    }
  }

  lemma NameShortens(s: string)
    requires Sizable(s)
    ensures ShortForm(s, Compact(s, MAX_NAME_BYTES), 256)
  {
    hide Compact, ShortForm, Text.Trim, Text.ByteLength;
    CompactShortens(s, MAX_NAME_BYTES);
  }

  lemma AsManyKept(calls: seq<ToolCall>)
    requires ShortCallsOf(calls, SanitizeCalls(calls))
    ensures SanitizeCalls(calls) != [] <==> exists j :: 0 <= j < |calls| && Named(calls[j])
  {
    hide ShortCallOf, Named, SanitizeCalls;
    SomeKept(calls, Named);
  }

  lemma FirstCallsShorten(m: Message)
    requires SizableTexts(m)
    ensures ShortCallsOf(First64(m.toolCalls), SanitizeCalls(FirstCalls(m.toolCalls)))
    ensures SanitizeCalls(FirstCalls(m.toolCalls)) != [] <==>
            exists j :: 0 <= j < |m.toolCalls| && j < 64 && Named(m.toolCalls[j])
  {
    hide Sizable, ShortCallsOf, Named, SanitizeCalls;
    var calls := FirstCalls(m.toolCalls);
    assert calls == First64(m.toolCalls);
    assert forall i | 0 <= i < |calls| :: calls[i] == m.toolCalls[i];
    CallsShorten(calls);
    AsManyKept(calls);
    if j :| 0 <= j < |m.toolCalls| && j < 64 && Named(m.toolCalls[j]) {
      assert Named(calls[j]);
    }
  }

  /** What sanitising makes of any message. */
  lemma SanitizeMeans(m: Message)
    requires SizableTexts(m)
    ensures Sanitize(m).Some? <==> Speaks(m)
    ensures Sanitize(m).Some? ==> CleanedOf(m, Sanitize(m).value)
  {
    hide Compact, ShortForm, SanitizeCalls, SanitizeContent, Named, Text.Canonical, Text.Trim, Sizable, ShortCallsOf;
    NameShortens(m.name);
    NameShortens(m.toolCallID);
    ContentShortens(m.content);
    FirstCallsShorten(m);
  }

  // ----------------------------------------------------------------- transcripts

  predicate Survives(m: Message) {
    Sanitize(m).Some?
  }

  /** A sanitised transcript is made of the messages that survive, in order. */
  lemma {:induction false} SanitizeAllMeans(messages: seq<Message>)
    ensures var clean, kept := SanitizeAll(messages), Only(messages, Survives);
            |clean| == |kept| && forall i | 0 <= i < |clean| :: Sanitize(kept[i]) == Some(clean[i])
  {
    hide Sanitize;
    if messages != [] {
      SanitizeAllMeans(messages[1..]);
    }
  }

  /** The units that are kept whole: an assistant message that makes calls with all the
      tool results that come next, or one message. */
  lemma PortableUnits(messages: seq<Message>, i: nat)
    requires i < |Units(PORTABLE_GROUPING, messages)|
    ensures var units := Units(PORTABLE_GROUPING, messages);
            && units[i] != []
            && if units[i][0].role == "assistant" && units[i][0].toolCalls != []
               then (forall k | 1 <= k < |units[i]| :: units[i][k].role == "tool")
                    && (i + 1 < |units| ==> units[i + 1] != [] && units[i + 1][0].role != "tool")
               else |units[i]| == 1
  {
    hide Units;
    UnitsWellCut(PORTABLE_GROUPING, messages, i);
    if i + 1 < |Units(PORTABLE_GROUPING, messages)| {
      UnitsWellCut(PORTABLE_GROUPING, messages, i + 1);
    }
  }

  /** A transcript of at most 1537 messages and eight MiB comes out of bounding whole. */
  lemma FittingStays(w: Wire, messages: seq<Message>)
    requires |SanitizeAll(messages)| <= 1537 && w.size(SanitizeAll(messages)) <= 8388608
    ensures Bound(w, messages) == SanitizeAll(messages)
  {
    hide SanitizeAll;
  }

  /** A longer or larger one never does, unless it is a single message. */
  lemma LargeIsTrimmed(w: Wire, messages: seq<Message>)
    requires var clean := SanitizeAll(messages); |clean| > 1537 || (|clean| > 1 && w.size(clean) > 8388608)
    ensures Bound(w, messages) != SanitizeAll(messages)
    ensures |Bound(w, messages)| < |SanitizeAll(messages)| && |Bound(w, messages)| <= 1537
  {
    hide SanitizeAll, Units;
    var clean := SanitizeAll(messages);
    var user := LastUser(clean);
    SanitizeAllSanitizes(messages);
    BoundCleanStable(w, clean);
    if user < |clean| {
      var from, cut := TrimToUserShape(w, clean, user);
      TrimIsShort(w, clean, user, from, cut);
    } else {
      var k := DropCount(w, clean);
      assert clean[0..] == clean;
    }
  }

  lemma TrimIsShort(w: Wire, clean: seq<Message>, user: nat, from: nat, cut: nat)
    requires user < |clean| && user + 1 <= cut <= |clean|
    requires |clean| > 1537 || (|clean| > 1 && w.size(clean) > 8388608)
    requires TrimToUser(w, clean, user) == [clean[user]] + clean[cut..]
    requires var r := TrimToUser(w, clean, user); Fits(w, r) || |r| == 1
    ensures |TrimToUser(w, clean, user)| < |clean|
  {
    hide TrimToUser;
    assert [clean[0]] + clean[1..] == clean;
  }

  /** Without a user message the longest suffix that fits is kept, or the last message. */
  lemma NoUserKeepsSuffix(w: Wire, messages: seq<Message>, k: nat)
    requires var clean := SanitizeAll(messages);
             (forall i | 0 <= i < |clean| :: clean[i].role != "user") && LongestFitting(w, clean, k)
    ensures Bound(w, messages) == SanitizeAll(messages)[k..]
  {
    hide SanitizeAll;
    var clean := SanitizeAll(messages);
    var drop := SomeSuffixFits(w, clean);
    assert clean[0..] == clean;
  }

  // --------------------------------------------------------------------- merging

  /** The shortest sequence that begins with a and ends with b. */
  ghost predicate ShortestJoin<T(!new)>(a: seq<T>, b: seq<T>, m: seq<T>) {
    Joins(a, b, m) && forall other :: Joins(a, b, other) ==> |m| <= |other|
  }

  ghost predicate Joins<T(!new)>(a: seq<T>, b: seq<T>, m: seq<T>) {
    a <= m && |b| <= |m| && m[|m| - |b|..] == b
  }

  lemma JoinIsUnique<T(!new)>(a: seq<T>, b: seq<T>, m: seq<T>, n: seq<T>)
    requires Joins(a, b, m) && Joins(a, b, n) && |m| == |n| <= |a| + |b|
    ensures m == n
  {
    forall i | 0 <= i < |m| ensures m[i] == n[i] {
      if i < |a| {
        assert m[i] == a[i] && n[i] == a[i];
      } else {
        assert m[i] == m[|m| - |b|..][i - |m| + |b|] && n[i] == n[|n| - |b|..][i - |n| + |b|];
      }
    }
  }

  lemma ShortestIsMerged<T(!new)>(a: seq<T>, b: seq<T>, m: seq<T>)
    requires ShortestJoin(a, b, m)
    ensures m == Merged(a, b)
  {
    MergedShortest(a, b, m);
    assert Joins(a, b, Merged(a, b));
    JoinIsUnique(a, b, m, Merged(a, b));
  }

  /** Merging bounds the shortest transcript that begins with the bounded history and ends
      with what came in; if that fits it is the result. */
  lemma MergeIsShortest(w: Wire, history: seq<Message>, incoming: seq<Message>, m: seq<Message>)
    requires ShortestJoin(Bound(w, history), Bound(w, incoming), m)
    ensures Merge(w, history, incoming) == Bound(w, m) && SanitizeAll(m) == m
    ensures |m| <= 1537 && w.size(m) <= 8388608 ==> Merge(w, history, incoming) == m
  {
    hide Bound, ShortestJoin, Merged;
    ShortestIsMerged(Bound(w, history), Bound(w, incoming), m);
    BoundIdempotent(w, history);
    BoundIdempotent(w, incoming);
    MergedIsSanitized(Bound(w, history), Bound(w, incoming));
    SanitizedStays(m);
    if |m| <= 1537 && w.size(m) <= 8388608 {
      FittingStays(w, m);
    }
  }

  lemma MergedIsSanitized(a: seq<Message>, b: seq<Message>)
    requires Sanitized(a) && Sanitized(b)
    ensures Sanitized(Merged(a, b))
  {
    hide Sanitize;
  }

  /** The next turn of a conversation: resending it with something new appends that. */
  lemma ResendingAppends(w: Wire, history: seq<Message>, added: seq<Message>)
    requires Sanitized(history + added) && |history + added| <= 1537
    requires w.size(history + added) <= 8388608 && w.size(history) <= 8388608
    ensures Merge(w, history, history + added) == history + added
  {
    hide Sanitize, Merged;
    assert Sanitized(history) by {
      assert forall i | 0 <= i < |history| :: history[i] == (history + added)[i];
    }
    SanitizedStays(history);
    SanitizedStays(history + added);
    FittingStays(w, history);
    FittingStays(w, history + added);
    MergeResent(history, added);
  }

  /** And messages that repeat nothing are appended to it. */
  lemma NewIsAppended(w: Wire, history: seq<Message>, added: seq<Message>)
    requires Sanitized(history + added) && |history + added| <= 1537
    requires w.size(history + added) <= 8388608 && w.size(history) <= 8388608 && w.size(added) <= 8388608
    requires forall m | m in history :: m !in added
    ensures Merge(w, history, added) == history + added
  {
    hide Sanitize;
    var all := history + added;
    assert Sanitized(history) && Sanitized(added) by {
      assert forall i | 0 <= i < |history| :: history[i] == all[i];
      assert forall i | 0 <= i < |added| :: added[i] == all[|history| + i];
    }
    SanitizedStays(history);
    SanitizedStays(added);
    SanitizedStays(all);
    FittingStays(w, history);
    FittingStays(w, added);
    FittingStays(w, all);
    NothingOverlaps(history, added);
    assert added[0..] == added;
  }

  lemma NothingOverlaps<T>(a: seq<T>, b: seq<T>)
    requires forall x | x in a :: x !in b
    ensures Overlap(a, b) == 0
  {
    forall k | 0 < k <= |a| && k <= |b| ensures !Overlaps(a, b, k) {
      assert a[|a| - k..][0] == a[|a| - k] && a[|a| - k] in a && b[..k][0] == b[0] && b[0] in b;
    }
  }
}
