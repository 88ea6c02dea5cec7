/**
 What a selection of a prompt means in terms of the messages: what they cost, which of them
 are always there, and when there is no selection.
 */
module PromptCases {
  import opened Chat
  import opened ToolProtocol
  import opened PromptBudget
  import Text

  /** What messages cost, counted from the last one. */
  function Tokens(meter: Meter, messages: seq<Message>): nat {
    if messages == [] then 0
    else Tokens(meter, messages[..|messages| - 1]) + meter.tokens(messages[|messages| - 1])
  }

  lemma {:induction false} TokensAppend(meter: Meter, a: seq<Message>, b: seq<Message>)
    ensures Tokens(meter, a + b) == Tokens(meter, a) + Tokens(meter, b)
    decreases |b|
  {
    if b == [] {
      assert a + b == a;
    } else {
      var last := |b| - 1;
      TokensAppend(meter, a, b[..last]);
      assert (a + b)[..|a| + last] == a + b[..last];
    }
  }

  lemma {:induction false} CostIsTokens(meter: Meter, unit: Unit)
    ensures Cost(meter, unit) == Tokens(meter, unit)
  {
    if unit != [] {
      CostIsTokens(meter, unit[1..]);
      TokensAppend(meter, [unit[0]], unit[1..]);
      assert [unit[0]] + unit[1..] == unit && [unit[0]][..0] == [];
      assert Tokens(meter, []) == 0;
    }
  }

  lemma {:induction false} SpentIsTokens(meter: Meter, units: seq<Unit>, chosen: Choice)
    requires |chosen| == |units|
    ensures Spent(meter, units, chosen) == Tokens(meter, Chosen(units, chosen))
  {
    hide Cost, Tokens;
    if units != [] {
      SpentIsTokens(meter, units[1..], chosen[1..]);
      CostIsTokens(meter, units[0]);
      TokensAppend(meter, if chosen[0] then units[0] else [], Chosen(units[1..], chosen[1..]));
      NothingCosts(meter);
    } else {
      NothingCosts(meter);
    }
  }

  lemma NothingCosts(meter: Meter)
    ensures Tokens(meter, []) == 0
  {
  }

  /** Units of a prompt: any message with calls with all the tool results that come next,
      or one message. */
  lemma PromptUnits(messages: seq<Message>, i: nat)
    requires i < |Units(PROMPT_GROUPING, messages)|
    ensures var units := Units(PROMPT_GROUPING, messages);
            && units[i] != []
            && if units[i][0].toolCalls != []
               then (forall k | 1 <= k < |units[i]| :: Text.Canonical(units[i][k].role) == "tool")
                    && (i + 1 < |units| ==> units[i + 1] != [] && Text.Canonical(units[i + 1][0].role) != "tool")
               else |units[i]| == 1
  {
    hide Units, Text.Canonical;
    UnitsWellCut(PROMPT_GROUPING, messages, i);
    if i + 1 < |Units(PROMPT_GROUPING, messages)| {
      UnitsWellCut(PROMPT_GROUPING, messages, i + 1);
    }
  }

  /** A unit is required exactly when it costs anything and begins with an instruction or
      has no user message after it. */
  lemma RequiredMeans(meter: Meter, units: seq<Unit>, i: nat)
    requires i < |units| && forall j | 0 <= j < |units| :: units[j] != []
    ensures RequiredUnits(meter, units)[i] <==>
            && Tokens(meter, units[i]) > 0
            && (|| Text.Canonical(units[i][0].role) in {"system", "developer"}
                || forall j | i < j < |units| :: Text.Canonical(units[j][0].role) != "user")
  {
    hide Text.Canonical, Cost, Tokens;
    CostIsTokens(meter, units[i]);
    assert forall j | 0 <= j < |units| :: units[j] in units;
    var u := ActiveFrom(units);
    if u > i {
      assert HasUser(units[u]);
    } else {
      assert forall j | i < j < |units| :: !HasUser(units[j]);
    }
  }

  /** An anchor is a lone user or assistant message without calls whose text is durable. */
  lemma AnchorMeans(meter: Meter, unit: Unit)
    ensures IsAnchor(meter, unit) <==>
            |unit| == 1 && Text.Canonical(unit[0].role) in {"user", "assistant"} && unit[0].toolCalls == []
            && meter.durable(unit[0].content)
  {
    hide Text.Canonical;
  }

  /** The messages a prompt cannot do without. */
  function Needed(meter: Meter, messages: seq<Message>): seq<Message> {
    var units := Units(PROMPT_GROUPING, messages);
    Chosen(units, RequiredUnits(meter, units))
  }

  /** Tools, attachments and a reserve of 2048 tokens come first. There is no selection
      exactly when less than 8192 tokens are left, or less than the needed messages cost;
      otherwise what is selected costs what is said and fits into what is left. */
  lemma SelectionFits(meter: Meter, b: Budget, messages: seq<Message>, r: Selection)
    requires messages != [] && Correct(meter, b, messages, r)
    ensures var left := b.total - b.tools - b.attachments - 2048;
            && (r.Rejected? <==> left < 8192 || Tokens(meter, Needed(meter, messages)) > left)
            && (r.Selected? ==> r.tokens == Tokens(meter, r.messages) <= left)
  {
    hide Units, RequiredUnits, Instructions, Chosen, Tokens, Spent, Within, AnchorsKept, PickedAnchors, ActiveFrom;
    hide IsHistory, Required;
    var units := Units(PROMPT_GROUPING, messages);
    SpentIsTokens(meter, units, RequiredUnits(meter, units));
    InstructionsCost(meter, units);
    if r.Selected? {
      var chosen, kept, anchors, window :| Lawful(meter, b, units, chosen, kept, anchors, window)
        && r.messages == Chosen(units, chosen) && r.tokens == Spent(meter, units, chosen);
      SpentIsTokens(meter, units, chosen);
    }
  }

  lemma InstructionsCost(meter: Meter, units: seq<Unit>)
    ensures Spent(meter, units, Instructions(meter, units)) <= Spent(meter, units, RequiredUnits(meter, units))
  {
    SpentMonotone(meter, units, Instructions(meter, units), RequiredUnits(meter, units));
  }

  /** Older history that is no anchor is only there as far as its share of what is left
      allows: for a continuing conversation, a percentage of it. */
  lemma HistoryShared(meter: Meter, b: Budget, units: seq<Unit>, chosen: Choice, kept: Choice, anchors: seq<nat>,
                      window: nat, i: nat)
    requires Lawful(meter, b, units, chosen, kept, anchors, window)
    requires i < |units| && chosen[i] && !RequiredUnits(meter, units)[i] && i !in anchors
    ensures var left := b.total - b.tools - b.attachments - 2048;
            Tokens(meter, Chosen(units, chosen)) <= if b.continuing then left * b.share / 100 else left
  {
    hide Tokens, Chosen, ActiveFrom, PickedAnchors, Spent, Cost, KeptIfFits, AnchorTokens;
    SpentIsTokens(meter, units, chosen);
    assert Cost(meter, units[i]) > 0 && IsHistory(meter, units, i);
    assert i >= window;
  }

  // ------------------------------------------------------------- the current turn

  /** Where a message is in the units. */
  lemma {:induction false} Locate(units: seq<Unit>, u: nat) returns (j: nat, k: nat)
    requires u < |Flatten(units)|
    ensures j < |units| && k < |units[j]| && u == |Flatten(units[..j])| + k && units[j][k] == Flatten(units)[u]
  {
    if u < |units[0]| {
      j, k := 0, u;
    } else {
      var rest := units[1..];
      var l;
      l, k := Locate(rest, u - |units[0]|);
      j := l + 1;
      assert units[..j] == [units[0]] + rest[..l];
      assert Flatten([units[0]] + rest[..l]) == units[0] + Flatten(rest[..l]) by {
        assert ([units[0]] + rest[..l])[1..] == rest[..l];
      }
    }
  }

  lemma {:induction false} ChosenTail(units: seq<Unit>, chosen: Choice, a: nat)
    requires |chosen| == |units| && a <= |units| && forall i | a <= i < |units| :: chosen[i]
    ensures Chosen(units, chosen) == Chosen(units[..a], chosen[..a]) + Flatten(units[a..])
    decreases |units|
  {
    if units != [] {
      if a == 0 {
        ChosenTail(units[1..], chosen[1..], 0);
        assert units[0..] == units && units[1..][0..] == units[1..] && units[1..][..0] == [] && chosen[1..][..0] == [];
      } else {
        ChosenTail(units[1..], chosen[1..], a - 1);
        assert units[..a][1..] == units[1..][..a - 1] && chosen[..a][1..] == chosen[1..][..a - 1];
        assert units[1..][a - 1..] == units[a..];
      }
    }
  }

  predicate LastUserAt(messages: seq<Message>, u: nat) {
    && u < |messages| && Text.Canonical(messages[u].role) == "user"
    && forall i | u < i < |messages| :: Text.Canonical(messages[i].role) != "user"
  }

  /** The last user message opens the first unit of the active turn. */
  lemma ActiveAt(messages: seq<Message>, u: nat)
    requires LastUserAt(messages, u)
    ensures var units := Units(PROMPT_GROUPING, messages); var a := ActiveFrom(units);
            a < |units| && Flatten(units[a..]) == messages[u..]
  {
    hide Units, Text.Canonical, ActiveFrom;
    var units := Units(PROMPT_GROUPING, messages);
    var a := ActiveFrom(units);
    var j, k := Locate(units, u);
    PromptUnits(messages, j);
    assert k == 0 && HasUser(units[j]);
    assert j <= a;
    if j < a {
      PromptUnits(messages, a);
      FirstOf(units, a, j);
    }
    UnitsSuffix(units, a);
  }

  lemma FirstOf(units: seq<Unit>, a: nat, j: nat)
    requires j < a < |units| && units[a] != [] && units[j] != []
    ensures |Flatten(units[..j])| < |Flatten(units[..a])| < |Flatten(units)|
    ensures Flatten(units)[|Flatten(units[..a])|] == units[a][0]
  {
    assert units == units[..a] + units[a..] && units[..a] == units[..j] + units[j..a];
    FlattenAppend(units[..a], units[a..]);
    FlattenAppend(units[..j], units[j..a]);
    FlattenStep(units[j..a], 0);
    assert units[j..a][0] == units[j] && units[j..a][0..] == units[j..a];
    FlattenStep(units, a);
  }

  /** When every message costs something, a selection ends with the whole current turn,
      from the last user message on. */
  lemma TurnIsKept(meter: Meter, b: Budget, messages: seq<Message>, r: Selection, u: nat)
    requires messages != [] && Correct(meter, b, messages, r) && r.Selected? && LastUserAt(messages, u)
    requires forall m | m in messages :: meter.tokens(m) > 0
    ensures |messages| - u <= |r.messages| && r.messages[|r.messages| - (|messages| - u)..] == messages[u..]
  {
    hide Units, ActiveFrom, Chosen, Text.Canonical, Within, AnchorsKept, PickedAnchors, Spent, Cost, IsHistory;
    var units := Units(PROMPT_GROUPING, messages);
    var chosen, kept, anchors, window :| Lawful(meter, b, units, chosen, kept, anchors, window)
      && r.messages == Chosen(units, chosen) && r.tokens == Spent(meter, units, chosen);
    ActiveAt(messages, u);
    var a := ActiveFrom(units);
    forall i | a <= i < |units| ensures chosen[i] {
      PromptUnits(messages, i);
      UnitCosts(meter, messages, units, i);
      assert Required(meter, units, i);
    }
    ChosenTail(units, chosen, a);
  }

  lemma UnitCosts(meter: Meter, messages: seq<Message>, units: seq<Unit>, i: nat)
    requires i < |units| && units[i] != [] && Flatten(units) == messages
    requires forall m | m in messages :: meter.tokens(m) > 0
    ensures Cost(meter, units[i]) > 0
  {
    UnitInside(units, i);
    assert units[i][0] in messages;
  }

  lemma {:induction false} UnitInside(units: seq<Unit>, i: nat)
    requires i < |units|
    ensures forall m | m in units[i] :: m in Flatten(units)
  {
    if i > 0 {
      UnitInside(units[1..], i - 1);
    }
  }

  /** And it has every instruction. */
  lemma InstructionsAreKept(meter: Meter, b: Budget, messages: seq<Message>, r: Selection, u: nat)
    requires messages != [] && Correct(meter, b, messages, r) && r.Selected? && u < |messages|
    requires Text.Canonical(messages[u].role) in {"system", "developer"}
    requires forall m | m in messages :: meter.tokens(m) > 0
    ensures messages[u] in r.messages
  {
    hide Units, ActiveFrom, Chosen, Text.Canonical, Within, AnchorsKept, PickedAnchors, Spent, Cost, IsHistory;
    var units := Units(PROMPT_GROUPING, messages);
    var chosen, kept, anchors, window :| Lawful(meter, b, units, chosen, kept, anchors, window)
      && r.messages == Chosen(units, chosen) && r.tokens == Spent(meter, units, chosen);
    var j, k := Locate(units, u);
    PromptUnits(messages, j);
    UnitCosts(meter, messages, units, j);
    assert k == 0 && IsInstruction(units[j]) && Required(meter, units, j);
    ChosenHas(units, chosen, j);
  }

  lemma {:induction false} ChosenHas(units: seq<Unit>, chosen: Choice, j: nat)
    requires |chosen| == |units| && j < |units| && chosen[j]
    ensures forall m | m in units[j] :: m in Chosen(units, chosen)
  {
    if j > 0 {
      ChosenHas(units[1..], chosen[1..], j - 1);
    }
  }
}
