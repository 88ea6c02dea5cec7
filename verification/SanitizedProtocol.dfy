/**
 Sanitising and the tool protocol: when an accepted conversation is still accepted after
 its texts have been compacted and its calls cut to the first ones that have a name.
 */
module SanitizedProtocol {
  import opened Chat
  import opened Compaction
  import opened Portable
  import Text
  import opened ToolProtocol

  /** Whoever makes calls spells the role of an assistant as the protocol does. Sanitising
      respells roles, and the protocol reads a role in any other spelling as a plain one. */
  predicate Spelled(m: Message) {
    m.toolCalls != [] && Text.Canonical(m.role) == "assistant" ==> m.role == "assistant"
  }

  predicate AllSpelled(messages: seq<Message>) {
    forall i | 0 <= i < |messages| :: Spelled(messages[i])
  }

  /** A tool result in another spelling. */
  predicate HiddenResult(m: Message) {
    Text.Canonical(m.role) == "tool" && m.role != "tool"
  }

  predicate NoHiddenResults(messages: seq<Message>) {
    forall i | 0 <= i < |messages| :: !HiddenResult(messages[i])
  }

  /** Sanitising keeps every call of the message. */
  predicate Carried(m: Message) {
    m.role == "assistant" ==>
      && |m.toolCalls| <= MAX_TOOL_CALLS
      && AllKept(m.toolCalls)
  }

  predicate Kept(c: ToolCall) {
    Short(c.id) != "" && Short(c.name) != ""
  }

  predicate AllCarried(messages: seq<Message>) {
    forall i | 0 <= i < |messages| :: Carried(messages[i])
  }

  function Short(id: string): string {
    Compact(id, MAX_NAME_BYTES)
  }

  function Shortened(ids: seq<string>): (r: seq<string>)
    ensures |r| == |ids| && forall i | 0 <= i < |ids| :: r[i] == Short(ids[i])
  {
    hide Short;
    if ids == [] then [] else [Short(ids[0])] + Shortened(ids[1..])
  }

  /** The ids of the calls an assistant message makes. */
  function Made(m: Message): seq<string> {
    if m.role == "assistant" then CallIds(m.toolCalls) else []
  }

  function AllMade(messages: seq<Message>): seq<string> {
    if messages == [] then [] else Made(messages[0]) + AllMade(messages[1..])
  }

  function Results(messages: seq<Message>): nat {
    if messages == [] then 0 else (if messages[0].role == "tool" then 1 else 0) + Results(messages[1..])
  }

  // ---------------------------------------- accepted conversations are balanced

  lemma StepBalances(t: Tracker, m: Message)
    requires Step(t, m).Some? && t.pending !! t.completed
    ensures var next := Step(t, m).value;
            && next.pending !! next.completed
            && |t.pending| + |Made(m)| == |next.pending| + (if m.role == "tool" then 1 else 0)
            && next.pending + next.completed == t.pending + t.completed + SetOf(Made(m))
            && Distinct(Made(m)) && SetOf(Made(m)) !! t.pending + t.completed
  {
    if m.role == "assistant" {
      CallsAdded(t, m.toolCalls);
    }
  }

  /** Over a run every call made is answered or still pending, and no id is made twice. */
  lemma {:induction false} RunBalances(t: Tracker, messages: seq<Message>)
    requires Run(t, messages).Some? && t.pending !! t.completed
    ensures |t.pending| + |AllMade(messages)| == |Run(t, messages).value.pending| + Results(messages)
    ensures Distinct(AllMade(messages)) && SetOf(AllMade(messages)) !! t.pending + t.completed
    decreases |messages|
  {
    hide Made, Step, SetOf, Distinct;
    if messages != [] {
      StepBalances(t, messages[0]);
      RunBalances(Step(t, messages[0]).value, messages[1..]);
      Appended(Made(messages[0]), AllMade(messages[1..]));
    } else {
      NothingMade();
    }
  }

  lemma NothingMade()
    ensures Distinct([]) && SetOf([]) == {}
  {
  }

  lemma Appended(a: seq<string>, b: seq<string>)
    ensures SetOf(a + b) == SetOf(a) + SetOf(b)
    ensures Distinct(a + b) <==> Distinct(a) && Distinct(b) && SetOf(a) !! SetOf(b)
  {
    SetOfAppend(a, b);
    DistinctAppend(a, b);
  }

  lemma CallsAdded(t: Tracker, calls: seq<ToolCall>)
    requires AddCalls(t, calls).Some?
    ensures var after := AddCalls(t, calls).value;
            && after.completed == t.completed && after.pending == t.pending + SetOf(CallIds(calls))
            && |after.pending| == |t.pending| + |calls|
            && Distinct(CallIds(calls)) && SetOf(CallIds(calls)) !! t.pending + t.completed
  {
    hide AddCalls;
    AddCallsSpec(t, calls);
    DistinctSize(CallIds(calls));
  }

  lemma {:induction false} DistinctSize(ids: seq<string>)
    requires Distinct(ids)
    ensures |SetOf(ids)| == |ids|
  {
    hide SetOf, Distinct;
    if ids != [] {
      var rest := ids[1..];
      assert [ids[0]] + rest == ids;
      Appended([ids[0]], rest);
      SingleId(ids[0]);
      DistinctSize(rest);
    } else {
      NothingMade();
    }
  }

  lemma SingleId(id: string)
    ensures SetOf([id]) == {id}
  {
  }

  // ------------------------------------------------ necessary: nothing is lost

  lemma {:induction false} ResultsKept(messages: seq<Message>)
    requires AllSpelled(messages)
    ensures Results(SanitizeAll(messages)) >= Results(messages)
    ensures Results(SanitizeAll(messages)) == Results(messages) <==> NoHiddenResults(messages)
  {
    hide Sanitize, Spelled, Carried, Made, NoHiddenResults;
    if messages != [] {
      AllSpelledStep(messages);
      NoneHiddenStep(messages);
      ResultsKept(messages[1..]);
      OneCount(messages[0]);
      SanitizeStep(messages);
    } else {
      NoneHidden();
    }
  }

  lemma NoneHidden()
    ensures NoHiddenResults([])
  {
  }

  lemma {:induction false} CallsShortened(messages: seq<Message>)
    requires AllSpelled(messages)
    ensures |AllMade(SanitizeAll(messages))| <= |AllMade(messages)|
    ensures |AllMade(SanitizeAll(messages))| == |AllMade(messages)| <==> AllCarried(messages)
    ensures AllCarried(messages) ==> AllMade(SanitizeAll(messages)) == Shortened(AllMade(messages))
  {
    hide Sanitize, Carried, Made, Spelled, HiddenResult;
    if messages != [] {
      AllSpelledStep(messages);
      CallsShortened(messages[1..]);
      OneCount(messages[0]);
      AllCarriedStep(messages);
      ShortenedAppend(Made(messages[0]), AllMade(messages[1..]));
      SanitizeStep(messages);
    }
  }

  /** Sanitising keeps every tool result and brings the hidden ones to light, but it keeps
      a call only as one with a shortened id. */
  lemma SanitizeCounts(messages: seq<Message>)
    requires AllSpelled(messages)
    ensures Results(SanitizeAll(messages)) >= Results(messages)
    ensures Results(SanitizeAll(messages)) == Results(messages) <==> NoHiddenResults(messages)
    ensures |AllMade(SanitizeAll(messages))| <= |AllMade(messages)|
    ensures |AllMade(SanitizeAll(messages))| == |AllMade(messages)| <==> AllCarried(messages)
    ensures AllCarried(messages) ==> AllMade(SanitizeAll(messages)) == Shortened(AllMade(messages))
  {
    hide *;
    ResultsKept(messages);
    CallsShortened(messages);
  }

  lemma SanitizeStep(messages: seq<Message>)
    requires messages != []
    ensures var clean, c := SanitizeAll(messages), Sanitize(messages[0]);
            if c.None? then clean == SanitizeAll(messages[1..])
            else clean != [] && clean[0] == c.value && clean[1..] == SanitizeAll(messages[1..])
  {
    hide Sanitize;
  }

  lemma AllSpelledStep(messages: seq<Message>)
    requires messages != [] && AllSpelled(messages)
    ensures Spelled(messages[0]) && AllSpelled(messages[1..])
  {
    hide Spelled;
    assert forall i | 0 <= i < |messages| - 1 :: messages[1..][i] == messages[i + 1];
  }

  lemma AllCarriedStep(messages: seq<Message>)
    requires messages != []
    ensures AllCarried(messages) <==> Carried(messages[0]) && AllCarried(messages[1..])
  {
    hide Carried;
    var rest := messages[1..];
    assert forall i | 0 <= i < |rest| :: rest[i] == messages[i + 1];
    assert AllCarried(messages) ==> forall i | 0 <= i < |rest| :: Carried(rest[i]);
    if Carried(messages[0]) && AllCarried(rest) {
      forall i | 0 <= i < |messages| ensures Carried(messages[i]) {
        assert i > 0 ==> messages[i] == rest[i - 1];
      }
    }
  }

  lemma NoneHiddenStep(messages: seq<Message>)
    requires messages != []
    ensures NoHiddenResults(messages) <==> !HiddenResult(messages[0]) && NoHiddenResults(messages[1..])
  {
    hide HiddenResult;
    var rest := messages[1..];
    assert forall i | 0 <= i < |rest| :: rest[i] == messages[i + 1];
    assert NoHiddenResults(messages) ==> forall i | 0 <= i < |rest| :: !HiddenResult(rest[i]);
    if !HiddenResult(messages[0]) && NoHiddenResults(rest) {
      forall i | 0 <= i < |messages| ensures !HiddenResult(messages[i]) {
        assert i > 0 ==> messages[i] == rest[i - 1];
      }
    }
  }

  lemma ShortenedAppend(a: seq<string>, b: seq<string>)
    ensures Shortened(a + b) == Shortened(a) + Shortened(b)
  {
    hide Short;
    if a == [] {
      assert a + b == b;
    } else {
      assert (a + b)[1..] == a[1..] + b;
      ShortenedAppend(a[1..], b);
    }
  }

  function MadeOf(c: Option<Message>): seq<string> {
    if c.Some? then Made(c.value) else []
  }

  lemma OneCount(m: Message)
    requires Spelled(m)
    ensures var c := Sanitize(m);
            && (c.Some? && c.value.role == "tool" <==> m.role == "tool" || HiddenResult(m))
            && |MadeOf(c)| <= |Made(m)| && (|MadeOf(c)| == |Made(m)| <==> Carried(m))
            && (Carried(m) ==> MadeOf(c) == Shortened(Made(m)))
  {
    hide Compact;
    if m.role in ROLES {
      RolesAreCanonical(m.role);
    }
    if m.role == "assistant" {
      CallsCount(FirstCalls(m.toolCalls));
      assert |m.toolCalls| <= MAX_TOOL_CALLS ==> FirstCalls(m.toolCalls) == m.toolCalls;
    }
  }

  predicate AllKept(calls: seq<ToolCall>) {
    forall i | 0 <= i < |calls| :: Kept(calls[i])
  }

  lemma AllKeptStep(calls: seq<ToolCall>)
    requires calls != []
    ensures AllKept(calls) <==> Kept(calls[0]) && AllKept(calls[1..])
  {
    hide Kept;
    var rest := calls[1..];
    assert forall i | 0 <= i < |rest| :: rest[i] == calls[i + 1];
    if Kept(calls[0]) && AllKept(rest) {
      forall i | 0 <= i < |calls| ensures Kept(calls[i]) {
        assert i > 0 ==> calls[i] == rest[i - 1];
      }
    }
  }

  lemma {:induction false} CallsCount(calls: seq<ToolCall>)
    ensures |SanitizeCalls(calls)| == |calls| <==> AllKept(calls)
    ensures AllKept(calls) ==> CallIds(SanitizeCalls(calls)) == Shortened(CallIds(calls))
  {
    hide Compact, AllKept;
    if calls != [] {
      var rest := calls[1..];
      CallsCount(rest);
      AllKeptStep(calls);
      if AllKept(calls) {
        assert CallIds(calls) == [calls[0].id] + CallIds(rest);
        var kept := SanitizeCalls(calls);
        assert kept == [SanitizeCall(calls[0])] + SanitizeCalls(rest);
        assert CallIds(kept) == [Short(calls[0].id)] + CallIds(SanitizeCalls(rest));
      }
    } else {
      NoneKept();
    }
  }

  lemma NoneKept()
    ensures AllKept([])
  {
  }

  // --------------------------------- sufficient: the run is the same up to names

  function Image(ids: set<string>): set<string> {
    set x | x in ids :: Short(x)
  }

  function ImageOf(t: Tracker): Tracker {
    Tracker(Image(t.pending), Image(t.completed))
  }

  ghost predicate InjectiveOn(ids: set<string>) {
    && (forall x, y | x in ids && y in ids && Short(x) == Short(y) :: x == y)
    && forall x | x in ids :: Short(x) != ""
  }

  lemma NoImage(ids: set<string>)
    ensures Image(ids) == {} <==> ids == {}
  {
    hide Short;
    if x :| x in ids {
      assert Short(x) in Image(ids);
    }
  }

  lemma ImageIn(all: set<string>, ids: set<string>, x: string)
    requires InjectiveOn(all) && ids <= all && x in all
    ensures Short(x) != "" && (Short(x) in Image(ids) <==> x in ids)
  {
    hide Short;
  }

  lemma ImageMore(ids: set<string>, x: string)
    ensures Image(ids + {x}) == Image(ids) + {Short(x)}
  {
    hide Short;
  }

  lemma ImageLess(all: set<string>, ids: set<string>, x: string)
    requires InjectiveOn(all) && ids <= all && x in ids
    ensures Image(ids - {x}) == Image(ids) - {Short(x)}
  {
    hide Short;
    forall y | y in Image(ids) && y != Short(x) ensures y in Image(ids - {x}) {
      var z :| z in ids && Short(z) == y;
      assert z in ids - {x};
    }
  }

  lemma {:induction false} CallsCommute(all: set<string>, t: Tracker, calls: seq<ToolCall>)
    requires InjectiveOn(all) && t.pending + t.completed + SetOf(CallIds(calls)) <= all
    requires AddCalls(t, calls).Some? && AllKept(calls)
    ensures AddCalls(ImageOf(t), SanitizeCalls(calls)) == Some(ImageOf(AddCalls(t, calls).value))
    decreases |calls|
  {
    hide Compact, InjectiveOn, Image;
    if calls != [] {
      var id, rest := calls[0].id, calls[1..];
      var next := t.(pending := t.pending + {id});
      assert CallIds(calls)[0] == id && id in SetOf(CallIds(calls));
      assert SetOf(CallIds(rest)) <= SetOf(CallIds(calls)) by {
        assert CallIds(calls) == [id] + CallIds(rest);
      }
      ImageIn(all, t.pending, id);
      ImageIn(all, t.completed, id);
      ImageMore(t.pending, id);
      AllKeptStep(calls);
      CallsCommute(all, next, rest);
      assert SanitizeCalls(calls) == [SanitizeCall(calls[0])] + SanitizeCalls(rest);
      assert SanitizeCalls(calls)[1..] == SanitizeCalls(rest);
    }
  }

  lemma StepCommutes(all: set<string>, t: Tracker, m: Message)
    requires InjectiveOn(all) && t.pending + t.completed + SetOf(Made(m)) <= all
    requires Step(t, m).Some? && Spelled(m) && Carried(m) && !HiddenResult(m)
    ensures var c := Sanitize(m);
            if c.None? then Step(t, m) == Some(t) else Step(ImageOf(t), c.value) == Some(ImageOf(Step(t, m).value))
  {
    hide Compact, InjectiveOn, Image, SetOf;
    NoImage(t.pending);
    if m.role in ROLES {
      RolesAreCanonical(m.role);
    }
    if m.role == "assistant" {
      assert FirstCalls(m.toolCalls) == m.toolCalls;
      CallsCommute(all, t, m.toolCalls);
      CallsCount(m.toolCalls);
    } else if m.role == "tool" {
      ImageIn(all, t.pending, m.toolCallID);
      ImageLess(all, t.pending, m.toolCallID);
      ImageMore(t.completed, m.toolCallID);
    }
  }

  lemma {:induction false} RunCommutes(all: set<string>, t: Tracker, messages: seq<Message>)
    requires InjectiveOn(all) && t.pending + t.completed + SetOf(AllMade(messages)) <= all && t.pending !! t.completed
    requires Run(t, messages).Some? && AllSpelled(messages) && AllCarried(messages) && NoHiddenResults(messages)
    ensures Run(ImageOf(t), SanitizeAll(messages)) == Some(ImageOf(Run(t, messages).value))
    decreases |messages|
  {
    hide Sanitize, Step, Made, Carried, Spelled, HiddenResult, InjectiveOn, Image, SetOf;
    if messages != [] {
      var m, rest := messages[0], messages[1..];
      AllCarriedStep(messages);
      NoneHiddenStep(messages);
      AllSpelledStep(messages);
      Appended(Made(m), AllMade(rest));
      StepCommutes(all, t, m);
      StepBalances(t, m);
      RunCommutes(all, Step(t, m).value, rest);
      var c := Sanitize(m);
      if c.Some? {
        assert SanitizeAll(messages) == [c.value] + SanitizeAll(rest);
        assert SanitizeAll(messages)[1..] == SanitizeAll(rest);
      } else {
        assert SanitizeAll(messages) == SanitizeAll(rest);
      }
    }
  }

  lemma DistinctIsInjective(messages: seq<Message>)
    requires AllCarried(messages) && Distinct(Shortened(AllMade(messages)))
    ensures InjectiveOn(SetOf(AllMade(messages)))
  {
    hide Short, Carried, Shortened, Distinct;
    var ids := AllMade(messages);
    forall x | x in SetOf(ids) ensures Short(x) != "" {
      MadeIsKept(messages, x);
    }
    forall x, y | x in SetOf(ids) && y in SetOf(ids) && Short(x) == Short(y) ensures x == y {
      SameShort(ids, x, y);
    }
  }

  lemma SameShort(ids: seq<string>, x: string, y: string)
    requires Distinct(Shortened(ids)) && x in ids && y in ids && Short(x) == Short(y)
    ensures x == y
  {
    hide Short, Shortened;
    var i :| 0 <= i < |ids| && ids[i] == x;
    var j :| 0 <= j < |ids| && ids[j] == y;
    assert Shortened(ids)[i] == Shortened(ids)[j];
  }

  lemma {:induction false} MadeIsKept(messages: seq<Message>, x: string)
    requires AllCarried(messages) && x in AllMade(messages)
    ensures Short(x) != ""
  {
    hide Compact;
    AllCarriedStep(messages);
    var m := messages[0];
    if x in Made(m) {
      var i :| 0 <= i < |m.toolCalls| && m.toolCalls[i].id == x;
      assert Kept(m.toolCalls[i]);
    } else {
      MadeIsKept(messages[1..], x);
    }
  }

  /** Nothing is lost and nothing new comes to light: no call is cut or dropped for want
      of a name or an id, no two ids become equal when shortened, no result is hidden. */
  predicate Survives(messages: seq<Message>) {
    AllCarried(messages) && Distinct(Shortened(AllMade(messages))) && NoHiddenResults(messages)
  }

  /** Exactly then sanitising leaves an accepted conversation accepted. */
  lemma SanitizeKeepsProtocolIff(messages: seq<Message>)
    requires InGrammar(messages) && AllSpelled(messages)
    ensures InGrammar(SanitizeAll(messages)) <==> Survives(messages)
  {
    hide Carried, Spelled, HiddenResult, Sanitize, InjectiveOn, Shortened, Distinct, SetOf, Made, Step;
    var clean := SanitizeAll(messages);
    AcceptedIsGrammar(messages);
    AcceptedIsGrammar(clean);
    RunBalances(FRESH, messages);
    SanitizeCounts(messages);
    if InGrammar(clean) {
      RunBalances(FRESH, clean);
    }
    if Survives(messages) {
      DistinctIsInjective(messages);
      RunCommutes(SetOf(AllMade(messages)), FRESH, messages);
      assert ImageOf(FRESH) == FRESH by {
        NoImage({});
      }
      NoImage(Run(FRESH, messages).value.pending);
    }
  }

  /** Then bounding keeps it accepted too, if a user message is left. */
  lemma BoundKeepsRawProtocol(w: Wire, messages: seq<Message>)
    requires InGrammar(messages) && AllSpelled(messages) && Survives(messages)
    requires exists m :: m in SanitizeAll(messages) && m.role == "user"
    ensures InGrammar(Bound(w, messages))
  {
    hide AllSpelled, Survives, InGrammar, BoundClean, Sanitize;
    SanitizeKeepsProtocolIff(messages);
    SanitizeAllSanitizes(messages);
    SanitizedStays(SanitizeAll(messages));
    BoundKeepsProtocol(w, SanitizeAll(messages));
  }

  // ------------------------------------------------------- conversations that break

  /** A call without a name, and its result. */
  const UNNAMED := [Message("assistant", Some("calling"), "", "", [ToolCall("c", "", "x")]), RESULT, CLOSING]

  /** The protocol never asks for the names of calls, but sanitising drops a call without
      one and keeps its result. */
  lemma UnnamedCallBreaks()
    ensures InGrammar(UNNAMED) && AllSpelled(UNNAMED) && !InGrammar(SanitizeAll(UNNAMED))
  {
    hide Sanitize, InGrammar, Distinct, Shortened, NoHiddenResults, HiddenResult, Compact;
    ExchangeIsAccepted(UNNAMED[0]);
    assert !Kept(UNNAMED[0].toolCalls[0]) by {
      Text.TrimOfTrimmed("");
      ShortStays("", MAX_NAME_BYTES);
    }
    assert !Carried(UNNAMED[0]);
    SanitizeKeepsProtocolIff(UNNAMED);
  }

  /** A message that the protocol takes for a plain one. */
  const MISSPELT := [Message("Tool", Some("result"), "", "c", [])]

  /** Sanitising makes it a tool result that answers nothing. */
  lemma HiddenResultBreaks()
    ensures InGrammar(MISSPELT) && AllSpelled(MISSPELT) && !InGrammar(SanitizeAll(MISSPELT))
  {
    hide Sanitize, InGrammar, Distinct, Shortened, AllCarried;
    assert MISSPELT[1..] == [];
    assert Step(FRESH, MISSPELT[0]) == Some(FRESH);
    AcceptedIsGrammar(MISSPELT);
    assert Text.Canonical("Tool") == "tool" by {
      Text.TrimOfTrimmed("Tool");
      assert Text.Lower("Tool") == "tool";
    }
    assert HiddenResult(MISSPELT[0]);
    SanitizeKeepsProtocolIff(MISSPELT);
  }
}
