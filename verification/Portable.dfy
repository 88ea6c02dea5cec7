/**
 Portable history: sanitising, bounding, and the overlap encoding between two
 transcripts. The serialised size is a parameter; everything else that the sanitising,
 bounding and overlap loops decide is modelled.
 */
module Portable {
  import opened Chat
  import opened Compaction
  import Text
  import opened ToolProtocol

  const MAX_MESSAGES := 1 + 512 * 3
  const MAX_HISTORY_BYTES := 0x80_0000
  const MAX_CONTENT_BYTES := 0x1_0000
  const MAX_TOOL_CALLS := 64
  const MAX_ARGUMENT_BYTES := 0x4000
  const MAX_NAME_BYTES := 256

  /** What the environment fixes: the serialised size of a transcript. */
  datatype Wire = Wire(size: seq<Message> -> nat)

  // ---------------------------------------------------------------- sanitising

  const ROLES := {"system", "developer", "user", "assistant", "tool"}

  function SanitizeCall(call: ToolCall): ToolCall {
    ToolCall(Compact(call.id, MAX_NAME_BYTES), Compact(call.name, MAX_NAME_BYTES),
             Compact(call.arguments, MAX_ARGUMENT_BYTES))
  }

  function SanitizeCalls(calls: seq<ToolCall>): (r: seq<ToolCall>)
    ensures |r| <= |calls|
    ensures forall c | c in r :: c.id != "" && c.name != ""
  {
    if calls == [] then []
    else
      var c := SanitizeCall(calls[0]);
      (if c.id == "" || c.name == "" then [] else [c]) + SanitizeCalls(calls[1..])
  }

  function SanitizeContent(content: Option<string>): Option<string> {
    if content.Some? && Text.Trim(content.value) != ""
    then Some(Compact(Text.Trim(content.value), MAX_CONTENT_BYTES)) else None
  }

  function FirstCalls(calls: seq<ToolCall>): (r: seq<ToolCall>)
    ensures |r| <= MAX_TOOL_CALLS && |r| <= |calls| && r <= calls
  {
    calls[..if |calls| > MAX_TOOL_CALLS then MAX_TOOL_CALLS else |calls|]
  }

  function Sanitize(m: Message): (r: Option<Message>)
    ensures r.Some? ==> r.value.role in ROLES && |r.value.toolCalls| <= MAX_TOOL_CALLS
    ensures r.Some? ==> (r.value.role != "assistant" ==> r.value.toolCalls == [])
  {
    var role := Text.Canonical(m.role);
    if role !in ROLES then None
    else
      var id := if role == "tool" then Compact(m.toolCallID, MAX_NAME_BYTES) else "";
      var content := SanitizeContent(m.content);
      var calls := if role == "assistant" then SanitizeCalls(FirstCalls(m.toolCalls)) else [];
      if content.None? && calls == [] && role != "tool" then None
      else Some(Message(role, content, Compact(m.name, MAX_NAME_BYTES), id, calls))
  }

  /** A transcript that sanitising leaves as it is. */
  ghost predicate Sanitized(messages: seq<Message>) {
    forall i | 0 <= i < |messages| :: Sanitize(messages[i]) == Some(messages[i])
  }

  function SanitizeAll(messages: seq<Message>): seq<Message> {
    if messages == [] then []
    else
      var c := Sanitize(messages[0]);
      (if c.Some? then [c.value] else []) + SanitizeAll(messages[1..])
  }

  lemma SanitizedCallsStay(calls: seq<ToolCall>)
    ensures SanitizeCalls(SanitizeCalls(calls)) == SanitizeCalls(calls)
  {
    if calls != [] {
      var c, rest := SanitizeCall(calls[0]), SanitizeCalls(calls[1..]);
      SanitizedCallsStay(calls[1..]);
      assert SanitizeCall(c) == c by {
        CompactStable(calls[0].id, MAX_NAME_BYTES);
        CompactStable(calls[0].name, MAX_NAME_BYTES);
        CompactStable(calls[0].arguments, MAX_ARGUMENT_BYTES);
      }
      if c.id != "" && c.name != "" {
        assert ([c] + rest)[1..] == rest;
      } else {
        assert [] + rest == rest;
      }
    }
  }

  lemma SanitizedContentStays(content: Option<string>)
    ensures SanitizeContent(SanitizeContent(content)) == SanitizeContent(content)
  {
    if SanitizeContent(content).Some? {
      CompactStable(Text.Trim(content.value), MAX_CONTENT_BYTES);
      Text.TrimOfTrimmed(Text.Trim(content.value));
      Text.TrimOfTrimmed(SanitizeContent(content).value);
    }
  }

  lemma RolesAreCanonical(role: string)
    requires role in ROLES
    ensures Text.Canonical(role) == role
  {
    Text.CanonicalOfWord(role);
  }

  lemma SanitizeIdempotent(m: Message)
    requires Sanitize(m).Some?
    ensures Sanitize(Sanitize(m).value) == Sanitize(m)
  {
    var c := Sanitize(m).value;
    RolesAreCanonical(c.role);
    SanitizedContentStays(m.content);
    SanitizedCallsStay(FirstCalls(m.toolCalls));
    assert FirstCalls(c.toolCalls) == c.toolCalls;
    CompactStable(m.name, MAX_NAME_BYTES);
    CompactStable(m.toolCallID, MAX_NAME_BYTES);
  }

  lemma SanitizeAllSanitizes(messages: seq<Message>)
    ensures Sanitized(SanitizeAll(messages))
  {
    if messages != [] {
      SanitizeAllSanitizes(messages[1..]);
      if Sanitize(messages[0]).Some? {
        SanitizeIdempotent(messages[0]);
      }
    }
  }

  lemma SanitizedStays(messages: seq<Message>)
    requires Sanitized(messages)
    ensures SanitizeAll(messages) == messages
  {
    if messages != [] {
      SanitizedStays(messages[1..]);
      assert [messages[0]] + messages[1..] == messages;
    }
  }

  // ------------------------------------------------------------------ bounding

  predicate Fits(w: Wire, messages: seq<Message>) {
    |messages| <= MAX_MESSAGES && w.size(messages) <= MAX_HISTORY_BYTES
  }

  /** An assistant message with calls takes the tool messages that follow it. */
  const PORTABLE_GROUPING := Grouping(
    (m: Message) => m.role == "assistant" && |m.toolCalls| > 0,
    (m: Message) => m.role == "tool")

  /** The position of the last user message, or the length when there is none. */
  function LastUser(messages: seq<Message>): (u: nat)
    ensures u <= |messages|
    ensures u < |messages| ==> messages[u].role == "user"
    ensures forall i | u < i < |messages| :: messages[i].role != "user"
    ensures u == |messages| ==> forall i | 0 <= i < |messages| :: messages[i].role != "user"
  {
    if messages == [] then 0
    else
      var rest := LastUser(messages[1..]);
      assert forall i | 1 <= i < |messages| :: messages[i] == messages[1..][i - 1];
      if rest < |messages| - 1 then rest + 1
      else if messages[0].role == "user" then 0 else |messages|
  }

  /** The user message and every unit from position j on fit together. */
  predicate FitsFrom(w: Wire, anchor: Message, units: seq<seq<Message>>, j: nat)
    requires j <= |units|
  {
    Fits(w, [anchor] + Flatten(units[j..]))
  }

  /** The first unit that is kept: going back from the newest unit, the walk stops
      at the first one that no longer fits beside the user message. */
  function KeepFrom(w: Wire, anchor: Message, units: seq<seq<Message>>, k: nat): (from: nat)
    requires k <= |units|
    ensures from <= k
    ensures forall j | from <= j < k :: FitsFrom(w, anchor, units, j)
    ensures from > 0 ==> !FitsFrom(w, anchor, units, from - 1)
  {
    if k > 0 && FitsFrom(w, anchor, units, k - 1) then KeepFrom(w, anchor, units, k - 1) else k
  }

  function TrimToUser(w: Wire, clean: seq<Message>, user: nat): seq<Message>
    requires user < |clean|
  {
    var units := Units(PORTABLE_GROUPING, clean[user + 1..]);
    [clean[user]] + Flatten(units[KeepFrom(w, clean[user], units, |units|)..])
  }

  function DropLeading(w: Wire, clean: seq<Message>): seq<Message> {
    if |clean| <= 1 || Fits(w, clean) then clean else DropLeading(w, clean[1..])
  }

  function BoundClean(w: Wire, clean: seq<Message>): seq<Message> {
    if clean == [] || Fits(w, clean) then clean
    else
      var user := LastUser(clean);
      if user < |clean| then TrimToUser(w, clean, user) else DropLeading(w, clean)
  }

  function Bound(w: Wire, messages: seq<Message>): seq<Message> {
    BoundClean(w, SanitizeAll(messages))
  }

  /** How many leading messages are dropped when there is no user message. */
  function DropCount(w: Wire, clean: seq<Message>): (k: nat)
    ensures clean != [] ==> k < |clean|
    ensures k <= |clean|
    ensures DropLeading(w, clean) == clean[k..]
    ensures Fits(w, clean[k..]) || |clean[k..]| <= 1
    ensures forall j | 0 <= j < k :: !Fits(w, clean[j..])
  {
    if |clean| <= 1 || Fits(w, clean) then 0
    else
      var rest := DropCount(w, clean[1..]);
      assert clean[1..][rest..] == clean[rest + 1..];
      assert forall j | 1 <= j < rest + 1 :: clean[j..] == clean[1..][j - 1..];
      assert clean[0..] == clean;
      rest + 1
  }

  /** The shape of a trimmed history, from the cut of its units. */
  lemma TrimToUserShape(w: Wire, clean: seq<Message>, user: nat) returns (from: nat, cut: nat)
    requires user < |clean|
    ensures var units := Units(PORTABLE_GROUPING, clean[user + 1..]);
            && from <= |units| && user + 1 <= cut <= |clean|
            && TrimToUser(w, clean, user) == [clean[user]] + clean[cut..]
            && clean[cut..] == Flatten(units[from..])
            && (forall j | from <= j < |units| :: FitsFrom(w, clean[user], units, j))
            && (from > 0 ==> !FitsFrom(w, clean[user], units, from - 1))
  {
    hide Units, FitsFrom;
    var tail := clean[user + 1..];
    var units := Units(PORTABLE_GROUPING, tail);
    from := KeepFrom(w, clean[user], units, |units|);
    var skipped := |Flatten(units[..from])|;
    cut := user + 1 + skipped;
    assert skipped <= |tail| && Flatten(units[from..]) == tail[skipped..] by {
      UnitsSuffix(units, from);
    }
    assert tail[skipped..] == clean[cut..];
  }

  /** A history that does not fit and has a user message comes out of bounding as the
      last user message followed by a contiguous suffix of what came after it. The
      suffix is made of whole units, and is as long as the caps allow without skipping
      a newer unit. */
  lemma TrimShape(w: Wire, messages: seq<Message>) returns (user: nat, from: nat, cut: nat)
    requires var clean := SanitizeAll(messages);
             !Fits(w, clean) && exists i :: 0 <= i < |clean| && clean[i].role == "user"
    ensures var clean := SanitizeAll(messages);
            && user < |clean| && clean[user].role == "user"
            && (forall i | user < i < |clean| :: clean[i].role != "user")
            && var units := Units(PORTABLE_GROUPING, clean[user + 1..]);
               && from <= |units| && user + 1 <= cut <= |clean|
               && Bound(w, messages) == [clean[user]] + clean[cut..]
               && clean[cut..] == Flatten(units[from..])
               && (forall j | from <= j < |units| :: FitsFrom(w, clean[user], units, j))
               && (from > 0 ==> !FitsFrom(w, clean[user], units, from - 1))
  {
    hide Units, FitsFrom, TrimToUser, SanitizeAll;
    var clean := SanitizeAll(messages);
    user := LastUser(clean);
    from, cut := TrimToUserShape(w, clean, user);
  }

  lemma TrimStable(w: Wire, clean: seq<Message>, user: nat)
    requires Sanitized(clean) && user < |clean|
    ensures var r := TrimToUser(w, clean, user);
            Sanitized(r) && r != [] && (Fits(w, r) || |r| == 1)
  {
    hide Sanitize, TrimToUser, Units;
    var from, cut := TrimToUserShape(w, clean, user);
    var units := Units(PORTABLE_GROUPING, clean[user + 1..]);
    var r := TrimToUser(w, clean, user);
    if from < |units| {
      assert FitsFrom(w, clean[user], units, from);
    } else {
      assert units[from..] == [];
    }
  }

  lemma BoundCleanStable(w: Wire, clean: seq<Message>)
    requires Sanitized(clean)
    ensures var r := BoundClean(w, clean);
            && Sanitized(r) && BoundClean(w, r) == r
            && (r == [] || Fits(w, r) || |r| == 1)
  {
    hide Sanitize, TrimToUser;
    var r := BoundClean(w, clean);
    if clean != [] && !Fits(w, clean) {
      if LastUser(clean) < |clean| {
        TrimStable(w, clean, LastUser(clean));
      } else {
        var k := DropCount(w, clean);
      }
      if |r| == 1 {
        AloneStays(w, r[0]);
        assert r == [r[0]];
      }
    }
  }

  /** A single message is never trimmed further, whatever its size. */
  lemma AloneStays(w: Wire, m: Message)
    ensures BoundClean(w, [m]) == [m]
  {
    if !Fits(w, [m]) && m.role == "user" {
      assert LastUser([m]) == 0;
      assert [m][1..] == [];
      assert Units(PORTABLE_GROUPING, []) == [];
      assert Flatten<Message>([]) == [];
    }
  }

  /** Bounding twice is bounding once, and the result is sanitised. */
  lemma BoundIdempotent(w: Wire, messages: seq<Message>)
    ensures Bound(w, Bound(w, messages)) == Bound(w, messages)
    ensures Sanitized(Bound(w, messages))
  {
    var clean := SanitizeAll(messages);
    SanitizeAllSanitizes(messages);
    BoundCleanStable(w, clean);
    SanitizedStays(BoundClean(w, clean));
  }

  /** When every sanitised message fits by itself, bounding meets both caps. */
  lemma BoundWithinCaps(w: Wire, messages: seq<Message>)
    requires forall m :: Sanitize(m) == Some(m) ==> w.size([m]) <= MAX_HISTORY_BYTES
    ensures Bound(w, messages) == [] || Fits(w, Bound(w, messages))
  {
    var r := Bound(w, messages);
    SanitizeAllSanitizes(messages);
    BoundCleanStable(w, SanitizeAll(messages));
    if |r| == 1 {
      assert Sanitize(r[0]) == Some(r[0]);
      assert r == [r[0]];
    }
  }

  lemma PortableKeepsExchanges()
    ensures KeepsExchanges(PORTABLE_GROUPING)
  {
  }

  /** The flags that choose every unit from position k on. */
  function FromOn(n: nat, k: nat): (r: seq<bool>)
    ensures |r| == n
  {
    if n == 0 then [] else [k == 0] + FromOn(n - 1, if k == 0 then 0 else k - 1)
  }

  lemma {:induction false} ChosenAll<T>(units: seq<seq<T>>)
    ensures Chosen(units, FromOn(|units|, 0)) == Flatten(units)
  {
    if units != [] {
      ChosenAll(units[1..]);
      assert FromOn(|units|, 0)[1..] == FromOn(|units| - 1, 0);
    }
  }

  lemma {:induction false} ChosenSuffix<T>(units: seq<seq<T>>, k: nat)
    requires k <= |units|
    ensures Chosen(units, FromOn(|units|, k)) == Flatten(units[k..])
    decreases |units|
  {
    if k == 0 {
      ChosenAll(units);
      assert units[0..] == units;
    } else {
      ChosenSuffix(units[1..], k - 1);
      assert FromOn(|units|, k)[1..] == FromOn(|units| - 1, k - 1);
      assert units[1..][k - 1..] == units[k..];
    }
  }

  /** The newest unit after the last user message fits beside that message. */
  predicate LastUnitFits(w: Wire, messages: seq<Message>, user: nat)
    requires user < |messages|
  {
    var units := Units(PORTABLE_GROUPING, messages[user + 1..]);
    units != [] && FitsFrom(w, messages[user], units, |units| - 1)
  }

  /** Bounding a history with a user message keeps it within the protocol, whether or not
      its last calls have been answered. They stay open exactly when nothing has to be
      trimmed or the unit that makes them fits beside the last user message. */
  lemma BoundKeepsOpenCalls(w: Wire, messages: seq<Message>)
    requires Sanitized(messages) && Run(FRESH, messages).Some?
    requires LastUser(messages) < |messages|
    ensures var before, after := Run(FRESH, messages).value, Run(FRESH, Bound(w, messages));
            && after.Some? && after.value.pending <= before.pending
            && (after.value.pending == before.pending <==>
                  before.pending == {} || Fits(w, messages) || LastUnitFits(w, messages, LastUser(messages)))
  {
    hide Sanitize, TrimToUser;
    SanitizedStays(messages);
    if !Fits(w, messages) {
      var user := LastUser(messages);
      CutRuns(messages, user);
      TrimRuns(w, messages[user..]);
      assert messages[user..][1..] == messages[user + 1..];
      assert TrimToUser(w, messages[user..], 0) == TrimToUser(w, messages, user) by {
        TrimsAlike(w, messages, user);
      }
    }
  }

  lemma TrimsAlike(w: Wire, messages: seq<Message>, user: nat)
    requires user < |messages|
    ensures TrimToUser(w, messages[user..], 0) == TrimToUser(w, messages, user)
    ensures LastUnitFits(w, messages[user..], 0) <==> LastUnitFits(w, messages, user)
  {
    assert messages[user..][1..] == messages[user + 1..];
  }

  /** Trimming chooses the user message and the newest units, the last one if it fits. */
  lemma TrimChooses(w: Wire, turn: seq<Message>) returns (chosen: seq<bool>)
    requires turn != [] && turn[0].role == "user"
    ensures |chosen| == |Units(PORTABLE_GROUPING, turn)| && chosen != []
    ensures Chosen(Units(PORTABLE_GROUPING, turn), chosen) == TrimToUser(w, turn, 0)
    ensures turn[1..] != [] ==> (chosen[|chosen| - 1] <==> LastUnitFits(w, turn, 0))
  {
    var g := PORTABLE_GROUPING;
    var units := Units(g, turn[1..]);
    var from := KeepFrom(w, turn[0], units, |units|);
    chosen := [true] + FromOn(|units|, from);
    assert UnitLength(g, turn) == 1;
    assert turn[..1] == [turn[0]];
    assert Units(g, turn) == [[turn[0]]] + units;
    ChosenSuffix(units, from);
    assert chosen[1..] == FromOn(|units|, from) && ([[turn[0]]] + units)[1..] == units;
    if units != [] {
      LastFlag(|units|, from);
    }
  }

  lemma TrimRuns(w: Wire, turn: seq<Message>)
    requires Run(FRESH, turn).Some? && turn != [] && turn[0].role == "user"
    ensures var after := Run(FRESH, TrimToUser(w, turn, 0));
            && after.Some?
            && after.value.pending == if LastUnitFits(w, turn, 0) then Run(FRESH, turn).value.pending else {}
  {
    hide Units, TrimToUser, LastUnitFits, Chosen;
    PortableKeepsExchanges();
    var chosen := TrimChooses(w, turn);
    ChosenUnitsRun(PORTABLE_GROUPING, {}, {}, turn, chosen);
    if turn[1..] == [] {
      assert Run(FRESH, turn) == Some(FRESH);
    }
  }

  lemma {:induction false} LastFlag(n: nat, k: nat)
    requires 0 < n && k <= n
    ensures FromOn(n, k)[n - 1] == (k < n)
  {
    if n > 1 {
      LastFlag(n - 1, if k == 0 then 0 else k - 1);
    }
  }

  /** Bounding an accepted history that has a user message leaves it accepted. */
  lemma BoundKeepsProtocol(w: Wire, messages: seq<Message>)
    requires Sanitized(messages) && InGrammar(messages)
    requires LastUser(messages) < |messages|
    ensures InGrammar(Bound(w, messages))
  {
    hide Bound, Sanitized;
    AcceptedIsGrammar(messages);
    AcceptedIsGrammar(Bound(w, messages));
    BoundKeepsOpenCalls(w, messages);
  }

  /** The longest suffix that fits begins at k, or none does and k is the last message. */
  ghost predicate LongestFitting(w: Wire, messages: seq<Message>, k: nat) {
    && k < |messages| && (Fits(w, messages[k..]) || k == |messages| - 1)
    && forall j | 0 <= j < k :: !Fits(w, messages[j..])
  }

  lemma SomeSuffixFits(w: Wire, messages: seq<Message>) returns (k: nat)
    requires messages != []
    ensures LongestFitting(w, messages, k) && k == DropCount(w, messages)
  {
    k := DropCount(w, messages);
  }

  /** Without a user message the trimmer cuts between messages, not units: it keeps the
      longest suffix that fits, or the last message, and the result is accepted exactly
      when that suffix does not begin with a tool result. */
  lemma BoundWithoutUser(w: Wire, messages: seq<Message>, k: nat)
    requires Sanitized(messages) && InGrammar(messages)
    requires (forall m | m in messages :: m.role != "user") && LongestFitting(w, messages, k)
    ensures Bound(w, messages) == messages[k..]
    ensures InGrammar(Bound(w, messages)) <==> messages[k].role != "tool"
  {
    hide Sanitize;
    SanitizedStays(messages);
    var drop := SomeSuffixFits(w, messages);
    assert drop == k;
    assert messages[LastUser(messages)..] == [] || LastUser(messages) == |messages|;
    CutAccepted(messages, k);
    assert messages[0..] == messages;
  }

  lemma WordsStay(m: Message)
    requires m.role in ROLES && m.name == ""
    requires m.content.Some? && Text.IsLower(m.content.value) && m.content.value != "" && |m.content.value| <= 9
    requires Text.IsLower(m.toolCallID) && |m.toolCallID| <= 9 && (m.role != "tool" ==> m.toolCallID == "")
    requires m.toolCalls == [] || (m.role == "assistant" && |m.toolCalls| == 1 && ShortCall(m.toolCalls[0]))
    ensures Sanitize(m) == Some(m)
  {
    hide Compact;
    RolesAreCanonical(m.role);
    ShortStays("", MAX_NAME_BYTES);
    ShortStays(m.toolCallID, MAX_NAME_BYTES);
    ShortStays(m.content.value, MAX_CONTENT_BYTES);
    Text.TrimOfTrimmed(m.content.value);
    if m.toolCalls != [] {
      var c := m.toolCalls[0];
      ShortStays(c.id, MAX_NAME_BYTES);
      ShortStays(c.name, MAX_NAME_BYTES);
      ShortStays(c.arguments, MAX_ARGUMENT_BYTES);
      assert m.toolCalls == [c];
      assert SanitizeCalls([c]) == [c];
    }
  }

  predicate ShortCall(c: ToolCall) {
    && Text.IsLower(c.id) && Text.IsLower(c.name) && Text.IsLower(c.arguments) && c.id != "" && c.name != ""
    && |c.id| <= 9 && |c.name| <= 9 && |c.arguments| <= 9
  }

  lemma ShortStays(s: string, limit: nat)
    requires Text.IsLower(s) && |s| <= 9 && limit >= 36
    ensures Compact(s, limit) == s
  {
    Text.TrimOfTrimmed(s);
    Text.ByteLengthAtMost(s);
  }

  const CALLING := Message("assistant", Some("calling"), "", "", [ToolCall("c", "f", "x")])
  const RESULT := Message("tool", Some("result"), "", "c", [])
  const CLOSING := Message("assistant", Some("done"), "", "", [])
  /** Sizes under which two messages fit and three do not. */
  const TIGHT := Wire((s: seq<Message>) => if |s| >= 3 then MAX_HISTORY_BYTES + 1 else 0)

  const EXCHANGE := [CALLING, RESULT, CLOSING]

  lemma ExchangeIsSanitized()
    ensures Sanitized(EXCHANGE)
  {
    hide Sanitize;
    WordsStay(CALLING);
    WordsStay(RESULT);
    WordsStay(CLOSING);
  }

  /** One call, its result and an answer make an accepted conversation. */
  lemma ExchangeIsAccepted(calling: Message)
    requires calling.role == "assistant" && |calling.toolCalls| == 1 && calling.toolCalls[0].id == "c"
    ensures InGrammar([calling, RESULT, CLOSING])
  {
    var calls, messages := calling.toolCalls, [calling, RESULT, CLOSING];
    var done := Tracker({}, {"c"});
    assert calls[1..] == [] && {} + {"c"} == {"c"} && {"c"} - {"c"} == {};
    assert AddCalls(Tracker({"c"}, {}), calls[1..]) == Some(Tracker({"c"}, {}));
    assert Step(FRESH, calling) == Some(Tracker({"c"}, {}));
    assert Step(Tracker({"c"}, {}), RESULT) == Some(done);
    assert AddCalls(done, CLOSING.toolCalls) == Some(done);
    assert messages[1..] == [RESULT, CLOSING] && [RESULT, CLOSING][1..] == [CLOSING] && [CLOSING][1..] == [];
    assert Run(done, [CLOSING]) == Some(done);
    assert Run(Tracker({"c"}, {}), [RESULT, CLOSING]) == Some(done);
    AcceptedIsGrammar(messages);
  }

  /** So an accepted history can be trimmed to one that is not: a call goes, and its
      result stays behind. */
  lemma ResultOrphaned()
    ensures Sanitized(EXCHANGE) && InGrammar(EXCHANGE)
    ensures Bound(TIGHT, EXCHANGE) == [RESULT, CLOSING] && !InGrammar(Bound(TIGHT, EXCHANGE))
  {
    hide Bound, InGrammar, Sanitized;
    ExchangeIsSanitized();
    ExchangeIsAccepted(CALLING);
    assert EXCHANGE[1..] == [RESULT, CLOSING] && EXCHANGE[0..] == EXCHANGE;
    assert LongestFitting(TIGHT, EXCHANGE, 1);
    BoundWithoutUser(TIGHT, EXCHANGE, 1);
  }

  const ASKING := Message("user", Some("ask"), "", "", [])
  /** Sizes under which no two messages fit. */
  const TINY := Wire((s: seq<Message>) => if |s| >= 2 then MAX_HISTORY_BYTES + 1 else 0)

  lemma OpenCallWaits()
    ensures Run(FRESH, [ASKING, CALLING]) == Some(Tracker({"c"}, {}))
  {
    var open := [ASKING, CALLING];
    assert open[1..] == [CALLING] && [CALLING][1..] == [] && CALLING.toolCalls[1..] == [];
    assert {} + {"c"} == {"c"};
    assert AddCalls(Tracker({"c"}, {}), CALLING.toolCalls[1..]) == Some(Tracker({"c"}, {}));
    assert Step(FRESH, CALLING) == Some(Tracker({"c"}, {}));
    assert Step(FRESH, ASKING) == Some(FRESH);
    assert Run(Tracker({"c"}, {}), []) == Some(Tracker({"c"}, {}));
    assert Run(FRESH, [CALLING]) == Some(Tracker({"c"}, {}));
  }

  lemma OpenIsSanitized()
    ensures Sanitized([ASKING, CALLING])
  {
    hide Sanitize;
    WordsStay(ASKING);
    WordsStay(CALLING);
  }

  /** A call that waits for its result is lost when it does not fit beside the question. */
  lemma OpenCallLost()
    ensures var open := [ASKING, CALLING];
            && Sanitized(open) && Run(FRESH, open) == Some(Tracker({"c"}, {}))
            && Bound(TINY, open) == [ASKING] && Run(FRESH, Bound(TINY, open)) == Some(FRESH)
  {
    hide Sanitized, SanitizeAll, TrimToUser;
    var open := [ASKING, CALLING];
    OpenCallWaits();
    OpenIsSanitized();
    SanitizedStays(open);
    assert LastUser(open) == 0;
    NoneFits(open, CALLING);
    assert [ASKING][1..] == [] && Step(FRESH, ASKING) == Some(FRESH);
  }

  lemma NoneFits(open: seq<Message>, calling: Message)
    requires open == [ASKING, calling]
    ensures TrimToUser(TINY, open, 0) == [ASKING]
  {
    var units := Units(PORTABLE_GROUPING, open[1..]);
    assert open[1..] == [calling];
    forall j | 0 <= j < |units| ensures !FitsFrom(TINY, ASKING, units, j) {
      FlattenStep(units, j);
      assert units[j] in units && units[j] != [];
    }
    var from := KeepFrom(TINY, ASKING, units, |units|);
    assert units[from..] == [];
  }

  method SanitizePortableMessages(messages: seq<Message>) returns (clean: seq<Message>)
    ensures clean == SanitizeAll(messages)
  {
    hide Sanitize;
    clean := [];
    var i := 0;
    assert messages[0..] == messages;
    while i < |messages|
      invariant 0 <= i <= |messages|
      invariant SanitizeAll(messages) == clean + SanitizeAll(messages[i..])
    {
      assert messages[i..][1..] == messages[i + 1..];
      var s := Sanitize(messages[i]);
      if s.Some? {
        clean := clean + [s.value];
      }
      i := i + 1;
    }
  }

  /** The walk back from the newest unit that keeps whole units while they fit. */
  method SelectNewest(w: Wire, anchor: Message, units: seq<seq<Message>>) returns (selected: seq<Message>)
    ensures selected == Flatten(units[KeepFrom(w, anchor, units, |units|)..])
  {
    selected := [];
    var i := |units|;
    while i > 0
      invariant 0 <= i <= |units|
      invariant selected == Flatten(units[i..])
      invariant KeepFrom(w, anchor, units, |units|) == KeepFrom(w, anchor, units, i)
    {
      var candidateTail := units[i - 1] + selected;
      FlattenStep(units, i - 1);
      if !Fits(w, [anchor] + candidateTail) {
        break;
      }
      selected := candidateTail;
      i := i - 1;
    }
  }

  method BoundedPortableMessages(w: Wire, messages: seq<Message>) returns (r: seq<Message>)
    ensures r == Bound(w, messages)
  {
    hide Units, KeepFrom, SanitizeAll;
    var clean := SanitizePortableMessages(messages);
    if |clean| == 0 || Fits(w, clean) {
      return clean;
    }
    var lastUser := -1;
    for i := 0 to |clean|
      invariant -1 <= lastUser < i
      invariant lastUser >= 0 ==> clean[lastUser].role == "user"
      invariant forall j | lastUser < j < i :: clean[j].role != "user"
    {
      if clean[i].role == "user" {
        lastUser := i;
      }
    }
    if lastUser >= 0 {
      assert lastUser == LastUser(clean);
      var units := GroupUnits(PORTABLE_GROUPING, clean[lastUser + 1..]);
      var selected := SelectNewest(w, clean[lastUser], units);
      return [clean[lastUser]] + selected;
    }
    assert LastUser(clean) == |clean|;
    r := clean;
    while !Fits(w, r)
      invariant r != [] && forall m | m in r :: m.role != "user"
      invariant DropLeading(w, clean) == DropLeading(w, r)
      decreases |r|
    {
      if |r| == 1 {
        return r;
      }
      // The next user turn, or just the next message when there is no such turn.
      var cut := 1;
      var i := 1;
      while i < |r|
        invariant 1 <= i <= |r| && cut == 1
      {
        if r[i].role == "user" {
          cut := i;
          break;
        }
        i := i + 1;
      }
      r := r[cut..];
    }
  }

  // ------------------------------------------------------------------- overlap

  predicate Overlaps<T(==)>(a: seq<T>, b: seq<T>, n: nat) {
    n <= |a| && n <= |b| && a[|a| - n..] == b[..n]
  }

  /** The longest suffix of a that is a prefix of b, no longer than limit. */
  function OverlapUpTo<T(==)>(a: seq<T>, b: seq<T>, limit: nat): (n: nat)
    ensures n <= limit && (n == 0 || Overlaps(a, b, n))
    ensures forall k | n < k <= limit :: !Overlaps(a, b, k)
  {
    if limit == 0 || Overlaps(a, b, limit) then limit else OverlapUpTo(a, b, limit - 1)
  }

  function Overlap<T(==)>(a: seq<T>, b: seq<T>): (n: nat)
    ensures Overlaps(a, b, n)
    ensures forall k | n < k :: !Overlaps(a, b, k)
  {
    OverlapUpTo(a, b, if |a| < |b| then |a| else |b|)
  }

  method FindOverlap<T(==)>(a: seq<T>, b: seq<T>) returns (overlap: nat)
    ensures overlap == Overlap(a, b)
  {
    var size := if |b| < |a| then |b| else |a|;
    while size > 0
      invariant 0 <= size <= |a| && size <= |b|
      invariant forall k | size < k :: !Overlaps(a, b, k)
    {
      var matched := true;
      var i := 0;
      while i < size
        invariant 0 <= i <= size
        invariant matched <==> forall j | 0 <= j < i :: a[|a| - size + j] == b[j]
      {
        if a[|a| - size + i] != b[i] {
          matched := false;
          break;
        }
        i := i + 1;
      }
      if matched {
        assert a[|a| - size..] == b[..size];
        assert Overlaps(a, b, size);
        return size;
      } else {
        assert a[|a| - size..][i] != b[..size][i];
      }
      size := size - 1;
    }
    return 0;
  }

  datatype Transition = Transition(drop: nat, delta: seq<Message>)

  function TransitionOf(parent: seq<Message>, target: seq<Message>): (t: Transition)
    ensures t.drop <= |parent|
  {
    var n := Overlap(parent, target);
    Transition(|parent| - n, target[n..])
  }

  /** A transition rebuilds its target from its parent, and no encoding of the
      target as a dropped parent plus a delta has a shorter delta. */
  lemma TransitionRebuilds(parent: seq<Message>, target: seq<Message>, drop: nat, delta: seq<Message>)
    ensures var t := TransitionOf(parent, target); parent[t.drop..] + t.delta == target
    ensures drop <= |parent| && parent[drop..] + delta == target ==> |TransitionOf(parent, target).delta| <= |delta|
  {
    var n := Overlap(parent, target);
    assert parent[|parent| - n..] == target[..n];
    assert target == target[..n] + target[n..];
    if drop <= |parent| && parent[drop..] + delta == target {
      assert target[..|parent| - drop] == parent[drop..];
      assert Overlaps(parent, target, |parent| - drop);
    }
  }

  function Merged<T(==)>(history: seq<T>, incoming: seq<T>): seq<T> {
    history + incoming[Overlap(history, incoming)..]
  }

  /** Merging gives the shortest transcript that begins with the history and ends
      with what came in. */
  lemma MergedShortest<T>(history: seq<T>, incoming: seq<T>, other: seq<T>)
    ensures var m := Merged(history, incoming);
            history <= m && |incoming| <= |m| && m[|m| - |incoming|..] == incoming
    ensures history <= other && |incoming| <= |other| && other[|other| - |incoming|..] == incoming
            ==> |Merged(history, incoming)| <= |other|
  {
    var n := Overlap(history, incoming);
    var m := Merged(history, incoming);
    assert incoming == incoming[..n] + incoming[n..];
    assert m == history[..|history| - n] + (history[|history| - n..] + incoming[n..]);
    if history <= other && |incoming| <= |other| && other[|other| - |incoming|..] == incoming && |other| < |m| {
      var k := |history| + |incoming| - |other|;
      assert n < k <= |incoming| && k <= |history|;
      assert other[..|history|] == history;
      assert other[|history| - k..|history|] == other[..|history|][|history| - k..];
      assert other[|other| - |incoming|..][..k] == other[|history| - k..|history|];
      assert history[|history| - k..] == other[|history| - k..|history|];
      assert Overlaps(history, incoming, k);
    }
  }

  /** Resending a whole transcript with new items appends just the new items. */
  lemma MergeResent<T>(history: seq<T>, added: seq<T>)
    ensures Merged(history, history + added) == history + added
  {
    assert Overlaps(history, history + added, |history|);
  }

  function Transit(w: Wire, parent: seq<Message>, target: seq<Message>): Transition {
    TransitionOf(Bound(w, parent), Bound(w, target))
  }

  function Merge(w: Wire, history: seq<Message>, incoming: seq<Message>): seq<Message> {
    Bound(w, Merged(Bound(w, history), Bound(w, incoming)))
  }

  method PortableTransition(w: Wire, parent: seq<Message>, target: seq<Message>)
    returns (drop: nat, delta: seq<Message>)
    ensures Transition(drop, delta) == Transit(w, parent, target)
    ensures drop <= |Bound(w, parent)| && Bound(w, parent)[drop..] + delta == Bound(w, target)
  {
    hide Bound, Overlap;
    var p := BoundedPortableMessages(w, parent);
    var t := BoundedPortableMessages(w, target);
    var overlap := FindOverlap(p, t);
    TransitionRebuilds(p, t, 0, []);
    drop, delta := |p| - overlap, t[overlap..];
  }

  method MergePortableMessages(w: Wire, history: seq<Message>, incoming: seq<Message>) returns (r: seq<Message>)
    ensures r == Merge(w, history, incoming)
  {
    hide Bound, Overlap;
    var h := BoundedPortableMessages(w, history);
    var x := BoundedPortableMessages(w, incoming);
    var overlap := FindOverlap(h, x);
    r := BoundedPortableMessages(w, h + x[overlap..]);
  }
}
