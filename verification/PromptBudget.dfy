/**
 Budget selection: which units of a transcript are sent upstream. Token counts and
 the pattern of durable task anchors are parameters.
 */
module PromptBudget {
  import opened Chat
  import opened ToolProtocol
  import Text

  const RESERVE_TOKENS := 2048
  const MINIMUM_BUDGET := 8192
  const MAX_ANCHOR_UNITS := 4
  const MAX_ANCHOR_TOKENS := 4096

  /** What the environment fixes about messages. */
  datatype Meter = Meter(tokens: Message -> nat, durable: Option<string> -> bool)

  /** The request's budgets: the whole input budget, what tools and attachments take
      of it, and the history share of a continuing conversation in percent. */
  datatype Budget = Budget(total: int, tools: nat, attachments: nat, continuing: bool, share: nat)

  function PromptTokens(b: Budget): int {
    b.total - b.tools - b.attachments - RESERVE_TOKENS
  }

  function HistoryLimit(b: Budget): int {
    if b.continuing then PromptTokens(b) * b.share / 100 else PromptTokens(b)
  }

  /** Any message with calls takes the tool results that follow it. */
  const PROMPT_GROUPING := Grouping(
    (m: Message) => |m.toolCalls| > 0,
    (m: Message) => Text.Canonical(m.role) == "tool")

  type Unit = seq<Message>

  predicate IsInstruction(u: Unit) {
    u != [] && Text.Canonical(u[0].role) in {"system", "developer"}
  }

  predicate HasUser(u: Unit) {
    u != [] && Text.Canonical(u[0].role) == "user"
  }

  function Cost(meter: Meter, u: Unit): nat {
    if u == [] then 0 else meter.tokens(u[0]) + Cost(meter, u[1..])
  }

  predicate IsAnchor(meter: Meter, u: Unit) {
    && |u| == 1 && !IsInstruction(u)
    && Text.Canonical(u[0].role) in {"user", "assistant"}
    && u[0].toolCalls == []
    && meter.durable(u[0].content)
  }

  // ------------------------------------------------------------------ choices

  type Choice = seq<bool>

  /** The tokens of the chosen units. */
  function Spent(meter: Meter, units: seq<Unit>, chosen: Choice): nat
    requires |chosen| == |units|
  {
    if units == [] then 0
    else (if chosen[0] then Cost(meter, units[0]) else 0) + Spent(meter, units[1..], chosen[1..])
  }

  predicate Within(a: Choice, b: Choice) {
    |a| == |b| && forall i | 0 <= i < |a| :: a[i] ==> b[i]
  }

  lemma SpentMonotone(meter: Meter, units: seq<Unit>, a: Choice, b: Choice)
    requires Within(a, b) && |a| == |units|
    ensures Spent(meter, units, a) <= Spent(meter, units, b)
  {
    if units != [] {
      assert forall i | 0 <= i < |a| - 1 :: a[1..][i] == a[i + 1] && b[1..][i] == b[i + 1];
      SpentMonotone(meter, units[1..], a[1..], b[1..]);
    }
  }

  lemma SpentMore(meter: Meter, units: seq<Unit>, chosen: Choice, i: nat)
    requires |chosen| == |units| && i < |units| && !chosen[i]
    ensures Spent(meter, units, chosen[i := true]) == Spent(meter, units, chosen) + Cost(meter, units[i])
  {
    if i == 0 {
      assert chosen[i := true][1..] == chosen[1..];
    } else {
      SpentMore(meter, units[1..], chosen[1..], i - 1);
      assert chosen[i := true][1..] == chosen[1..][i - 1 := true];
    }
  }

  lemma SpentNothing(meter: Meter, units: seq<Unit>, chosen: Choice)
    requires |chosen| == |units| && forall i | 0 <= i < |chosen| :: !chosen[i]
    ensures Spent(meter, units, chosen) == 0
  {
    if units != [] {
      SpentNothing(meter, units[1..], chosen[1..]);
    }
  }

  /** The unit of the active turn's user message; the first unit if there is none. */
  function ActiveFrom(units: seq<Unit>): (u: nat)
    ensures u == 0 || (u < |units| && HasUser(units[u]))
    ensures forall i | u < i < |units| :: !HasUser(units[i])
  {
    if units == [] then 0
    else
      var last := |units| - 1;
      if HasUser(units[last]) then last
      else
        var before := ActiveFrom(units[..last]);
        assert forall i | 0 <= i < last :: units[..last][i] == units[i];
        before
  }

  predicate Instructs(meter: Meter, units: seq<Unit>, i: nat)
    requires i < |units|
  {
    IsInstruction(units[i]) && Cost(meter, units[i]) > 0
  }

  /** Every instruction, and every unit of the active turn, that costs anything. */
  predicate Required(meter: Meter, units: seq<Unit>, i: nat)
    requires i < |units|
  {
    Cost(meter, units[i]) > 0 && (IsInstruction(units[i]) || i >= ActiveFrom(units))
  }

  function Instructions(meter: Meter, units: seq<Unit>): (c: Choice)
    ensures |c| == |units| && forall i | 0 <= i < |c| :: c[i] == Instructs(meter, units, i)
  {
    seq(|units|, i requires 0 <= i < |units| => Instructs(meter, units, i))
  }

  function RequiredUnits(meter: Meter, units: seq<Unit>): (c: Choice)
    ensures |c| == |units| && forall i | 0 <= i < |c| :: c[i] == Required(meter, units, i)
  {
    seq(|units|, i requires 0 <= i < |units| => Required(meter, units, i))
  }

  datatype Reason = LittleBudget | LongInstructions | LongTurn

  datatype Selection = Rejected(reason: Reason) | Selected(messages: seq<Message>, tokens: nat)

  /** Older history: a unit before the active turn that is no instruction. */
  predicate IsHistory(meter: Meter, units: seq<Unit>, i: nat)
    requires i < |units|
  {
    i < ActiveFrom(units) && !IsInstruction(units[i]) && Cost(meter, units[i]) > 0
  }

  predicate Ascending(xs: seq<nat>) {
    forall i, j | 0 <= i < j < |xs| :: xs[i] < xs[j]
  }

  /** At most four anchors before the active turn, in order: the earliest one, and
      then the newest, so that only ones in between are missing. */
  ghost predicate PickedAnchors(meter: Meter, units: seq<Unit>, lastUser: nat, anchors: seq<nat>) {
    && |anchors| <= 4 && Ascending(anchors)
    && (forall k | 0 <= k < |anchors| ::
          anchors[k] < lastUser && anchors[k] < |units| && IsAnchor(meter, units[anchors[k]]))
    && (forall a | 0 <= a < lastUser && a < |units| && IsAnchor(meter, units[a]) && a !in anchors ::
          |anchors| == 4 && anchors[0] < a < anchors[1])
  }

  /** The tokens of the first k anchors that are kept without being required anyway. */
  function AnchorTokens(meter: Meter, units: seq<Unit>, kept: Choice, anchors: seq<nat>, k: nat): nat
    requires |kept| == |units| && k <= |anchors| && forall j | 0 <= j < |anchors| :: anchors[j] < |units|
  {
    if k == 0 then 0
    else
      var i := anchors[k - 1];
      AnchorTokens(meter, units, kept, anchors, k - 1)
      + if kept[i] && !RequiredUnits(meter, units)[i] then Cost(meter, units[i]) else 0
  }

  /** Anchor k costs something and fits both into the anchors' own budget and into the
      whole one after the anchors kept before it. */
  ghost predicate Fits(meter: Meter, units: seq<Unit>, kept: Choice, anchors: seq<nat>, k: nat, limit: int)
    requires |kept| == |units| && k < |anchors| && forall j | 0 <= j < |anchors| :: anchors[j] < |units|
  {
    var cost, before := Cost(meter, units[anchors[k]]), AnchorTokens(meter, units, kept, anchors, k);
    && cost > 0 && before + cost <= 4096
    && Spent(meter, units, RequiredUnits(meter, units)) + before + cost <= limit
  }

  /** Anchor k is kept exactly when it is required anyway or fits. */
  ghost predicate KeptIfFits(meter: Meter, units: seq<Unit>, kept: Choice, anchors: seq<nat>, k: nat, limit: int)
    requires |kept| == |units| && k < |anchors| && forall j | 0 <= j < |anchors| :: anchors[j] < |units|
  {
    kept[anchors[k]] <==>
      RequiredUnits(meter, units)[anchors[k]] || Fits(meter, units, kept, anchors, k, limit)
  }

  /** The required units and the anchors that fit, first to last. */
  ghost predicate AnchorsKept(meter: Meter, units: seq<Unit>, kept: Choice, anchors: seq<nat>, limit: int) {
    && |kept| == |units| && (forall k | 0 <= k < |anchors| :: anchors[k] < |units|)
    && Within(RequiredUnits(meter, units), kept)
    && (forall i | 0 <= i < |units| && kept[i] && !RequiredUnits(meter, units)[i] :: i in anchors)
    && (forall k | 0 <= k < |anchors| :: KeptIfFits(meter, units, kept, anchors, k, limit))
    && AnchorTokens(meter, units, kept, anchors, |anchors|) <= 4096
  }

  /** A lawful choice. Apart from the anchors that fit, the history that is kept is a
      window that ends at the active turn, and a wider window would exceed the limit. */
  ghost predicate Lawful(meter: Meter, b: Budget, units: seq<Unit>, chosen: Choice, kept: Choice,
                         anchors: seq<nat>, window: nat)
  {
    && |chosen| == |units|
    && window <= ActiveFrom(units)
    && PickedAnchors(meter, units, ActiveFrom(units), anchors)
    && AnchorsKept(meter, units, kept, anchors, PromptTokens(b))
    && Within(kept, chosen)
    && (forall i | 0 <= i < |units| && Required(meter, units, i) :: chosen[i])
    && (forall i | 0 <= i < |units| && chosen[i] :: Cost(meter, units[i]) > 0)
    && (forall i | window <= i < |units| && IsHistory(meter, units, i) :: chosen[i])
    && (forall i | 0 <= i < window && i < |units| :: chosen[i] == kept[i])
    && Spent(meter, units, chosen) <= PromptTokens(b)
    && ((exists i :: window <= i < |units| && IsHistory(meter, units, i) && i !in anchors)
        ==> Spent(meter, units, chosen) <= HistoryLimit(b))
    && (window > 0 ==>
          && window - 1 < |units| && IsHistory(meter, units, window - 1) && !chosen[window - 1]
          && Spent(meter, units, chosen) + Cost(meter, units[window - 1]) > HistoryLimit(b))
  }

  // ------------------------------------------------------------------- phases

  /** All instructions are kept, or the request cannot be served. */
  method KeepInstructions(meter: Meter, units: seq<Unit>, limit: nat) returns (chosen: Choice, used: nat, ok: bool)
    ensures ok <==> Spent(meter, units, Instructions(meter, units)) <= limit
    ensures ok ==> chosen == Instructions(meter, units) && used == Spent(meter, units, chosen)
  {
    chosen, used := seq(|units|, _ => false), 0;
    SpentNothing(meter, units, chosen);
    var i := |units|;
    while i > 0
      invariant 0 <= i <= |units| && |chosen| == |units|
      invariant forall j | 0 <= j < |units| :: chosen[j] == (j >= i && Instructs(meter, units, j))
      invariant used == Spent(meter, units, chosen) <= limit
    {
      i := i - 1;
      if IsInstruction(units[i]) && Cost(meter, units[i]) > 0 {
        SpentMore(meter, units, chosen, i);
        if used + Cost(meter, units[i]) > limit {
          SpentMonotone(meter, units, chosen[i := true], Instructions(meter, units));
          return chosen, used, false;
        }
        chosen := chosen[i := true];
        used := used + Cost(meter, units[i]);
      }
    }
    assert chosen == Instructions(meter, units);
    return chosen, used, true;
  }

  /** The active turn is kept whole, or the request cannot be served. */
  method KeepActiveTurn(meter: Meter, units: seq<Unit>, instructions: Choice, spent: nat, limit: nat)
    returns (chosen: Choice, used: nat, lastUser: nat, ok: bool)
    requires units != [] && instructions == Instructions(meter, units) && spent == Spent(meter, units, instructions)
    ensures ok <==> Spent(meter, units, RequiredUnits(meter, units)) <= limit
    ensures lastUser == ActiveFrom(units)
    ensures ok ==> chosen == RequiredUnits(meter, units) && used == Spent(meter, units, chosen)
  {
    lastUser := 0;
    var i := 0;
    while i < |units|
      invariant 0 <= i <= |units| && lastUser < |units|
      invariant lastUser == 0 || (lastUser < i && HasUser(units[lastUser]))
      invariant forall j | lastUser < j < i :: !HasUser(units[j])
    {
      if HasUser(units[i]) {
        lastUser := i;
      }
      i := i + 1;
    }
    assert lastUser == ActiveFrom(units);
    chosen, used := instructions, spent;
    var current := 0;
    i := lastUser;
    while i < |units|
      invariant lastUser <= i <= |units| && |chosen| == |units|
      invariant forall j | 0 <= j < |units| ::
                  chosen[j] == (instructions[j] || (lastUser <= j < i && Cost(meter, units[j]) > 0))
      invariant used == spent + current == Spent(meter, units, chosen)
    {
      if !chosen[i] && Cost(meter, units[i]) > 0 {
        SpentMore(meter, units, chosen, i);
        chosen := chosen[i := true];
        current := current + Cost(meter, units[i]);
        used := used + Cost(meter, units[i]);
      }
      i := i + 1;
    }
    assert chosen == RequiredUnits(meter, units);
    ok := spent + current <= limit;
  }

  method AnchorCandidates(meter: Meter, units: seq<Unit>, lastUser: nat) returns (candidates: seq<nat>)
    requires lastUser <= |units|
    ensures Ascending(candidates)
    ensures forall j | 0 <= j < |candidates| :: candidates[j] < lastUser && IsAnchor(meter, units[candidates[j]])
    ensures forall a | 0 <= a < lastUser && IsAnchor(meter, units[a]) :: a in candidates
  {
    hide IsAnchor;
    candidates := [];
    var i := 0;
    while i < lastUser
      invariant 0 <= i <= lastUser && Ascending(candidates)
      invariant forall j | 0 <= j < |candidates| :: candidates[j] < i && IsAnchor(meter, units[candidates[j]])
      invariant forall a | 0 <= a < i && IsAnchor(meter, units[a]) :: a in candidates
    {
      if IsAnchor(meter, units[i]) {
        candidates := candidates + [i];
      }
      i := i + 1;
    }
  }

  method PickAnchors(meter: Meter, units: seq<Unit>, lastUser: nat) returns (anchors: seq<nat>)
    requires lastUser <= |units|
    ensures PickedAnchors(meter, units, lastUser, anchors)
    ensures forall k | 0 <= k < |anchors| :: anchors[k] < lastUser
  {
    hide IsAnchor;
    var candidates := AnchorCandidates(meter, units, lastUser);
    if candidates == [] {
      return [];
    }
    // The first candidate, then the newest ones: kept in ascending order as they come.
    var newest: seq<nat> := [];
    var i := |candidates|;
    while i > 1 && |newest| + 1 < MAX_ANCHOR_UNITS
      invariant 1 <= i <= |candidates| && newest == candidates[i..] && |newest| < MAX_ANCHOR_UNITS
    {
      i := i - 1;
      newest := [candidates[i]] + newest;
    }
    anchors := [candidates[0]] + newest;
    EndsAreAnchors(meter, units, lastUser, candidates, i, anchors);
  }

  /** The first and the newest candidates leave out only candidates in between. */
  lemma EndsAreAnchors(meter: Meter, units: seq<Unit>, lastUser: nat, candidates: seq<nat>, i: nat, anchors: seq<nat>)
    requires lastUser <= |units| && Ascending(candidates) && 1 <= i <= |candidates|
    requires forall j | 0 <= j < |candidates| :: candidates[j] < lastUser && IsAnchor(meter, units[candidates[j]])
    requires forall a | 0 <= a < lastUser && IsAnchor(meter, units[a]) :: a in candidates
    requires anchors == [candidates[0]] + candidates[i..] && |anchors| <= MAX_ANCHOR_UNITS
    requires i == 1 || |anchors| == MAX_ANCHOR_UNITS
    ensures PickedAnchors(meter, units, lastUser, anchors)
    ensures forall k | 0 <= k < |anchors| :: anchors[k] < lastUser
  {
    hide IsAnchor, Ascending;
    AscendingEnds(candidates, i, anchors);
    forall k | 0 <= k < |anchors|
      ensures anchors[k] < lastUser && anchors[k] < |units| && IsAnchor(meter, units[anchors[k]])
    {
      assert anchors[k] == candidates[if k == 0 then 0 else i + k - 1];
    }
    forall a | 0 <= a < lastUser && IsAnchor(meter, units[a]) && a !in anchors
      ensures |anchors| == MAX_ANCHOR_UNITS && anchors[0] < a < anchors[1]
    {
      var j :| 0 <= j < |candidates| && candidates[j] == a;
      BetweenEnds(candidates, i, anchors, j);
    }
    assert forall a | 0 <= a < lastUser && a < |units| && IsAnchor(meter, units[a]) && a !in anchors ::
        |anchors| == MAX_ANCHOR_UNITS && anchors[0] < a < anchors[1];
  }

  lemma AscendingEnds(candidates: seq<nat>, i: nat, anchors: seq<nat>)
    requires 1 <= i <= |candidates| && anchors == [candidates[0]] + candidates[i..] && Ascending(candidates)
    ensures Ascending(anchors)
  {
    assert forall k | 0 < k < |anchors| :: anchors[k] == candidates[i + k - 1];
  }

  lemma BetweenEnds(candidates: seq<nat>, i: nat, anchors: seq<nat>, j: nat)
    requires 1 <= i <= |candidates| && j < |candidates|
    requires anchors == [candidates[0]] + candidates[i..] && candidates[j] !in anchors && Ascending(candidates)
    ensures 0 < j < i && candidates[0] < candidates[j] && (i < |candidates| ==> candidates[j] < candidates[i])
  {
    assert anchors[0] == candidates[0];
    assert forall m | i <= m < |candidates| :: anchors[m - i + 1] == candidates[m];
  }

  lemma {:induction false} AnchorTokensFrame(meter: Meter, units: seq<Unit>, a: Choice, b: Choice,
                                             anchors: seq<nat>, k: nat)
    requires |a| == |b| == |units| && k <= |anchors| && forall j | 0 <= j < |anchors| :: anchors[j] < |units|
    requires forall j | 0 <= j < k :: a[anchors[j]] == b[anchors[j]]
    ensures AnchorTokens(meter, units, a, anchors, k) == AnchorTokens(meter, units, b, anchors, k)
  {
    hide Cost, RequiredUnits;
    if k > 0 {
      AnchorTokensFrame(meter, units, a, b, anchors, k - 1);
    }
  }

  /** An anchor that is added later does not change what was decided before. */
  lemma KeptStays(meter: Meter, units: seq<Unit>, kept: Choice, anchors: seq<nat>, k: nat, limit: int)
    requires |kept| == |units| && k < |anchors| && forall j | 0 <= j < |anchors| :: anchors[j] < |units|
    requires Ascending(anchors) && forall j | 0 <= j < k :: KeptIfFits(meter, units, kept, anchors, j, limit)
    ensures var more := kept[anchors[k] := true];
            && (forall j | 0 <= j < k :: KeptIfFits(meter, units, more, anchors, j, limit))
            && AnchorTokens(meter, units, more, anchors, k) == AnchorTokens(meter, units, kept, anchors, k)
  {
    hide Cost, RequiredUnits, Spent, AnchorTokens;
    var more := kept[anchors[k] := true];
    assert forall j | 0 <= j < k :: anchors[j] < anchors[k] && more[anchors[j]] == kept[anchors[j]];
    AnchorTokensFrame(meter, units, kept, more, anchors, k);
    forall j | 0 <= j < k ensures KeptIfFits(meter, units, more, anchors, j, limit) {
      assert KeptIfFits(meter, units, kept, anchors, j, limit) && anchors[j] != anchors[k];
      AnchorTokensFrame(meter, units, kept, more, anchors, j);
    }
  }

  /** The first k anchors have been decided. */
  ghost predicate KeptSoFar(meter: Meter, units: seq<Unit>, kept: Choice, anchors: seq<nat>, k: nat, limit: int) {
    && |kept| == |units| && k <= |anchors| && (forall j | 0 <= j < |anchors| :: anchors[j] < |units|)
    && Within(RequiredUnits(meter, units), kept)
    && (forall i | 0 <= i < |units| && kept[i] && !RequiredUnits(meter, units)[i] :: i in anchors[..k])
    && (forall j | 0 <= j < k :: KeptIfFits(meter, units, kept, anchors, j, limit))
  }

  /** An anchor that is not reached yet is kept only if it is required anyway. */
  lemma NotYetKept(meter: Meter, units: seq<Unit>, kept: Choice, anchors: seq<nat>, k: nat, limit: int)
    requires KeptSoFar(meter, units, kept, anchors, k, limit) && k < |anchors| && Ascending(anchors)
    ensures kept[anchors[k]] == RequiredUnits(meter, units)[anchors[k]]
  {
    hide RequiredUnits, KeptIfFits;
    assert anchors[k] !in anchors[..k];
  }

  /** An anchor that fits is added, and the earlier decisions stay. */
  lemma AnchorAdded(meter: Meter, units: seq<Unit>, kept: Choice, anchors: seq<nat>, k: nat, limit: int)
    requires KeptSoFar(meter, units, kept, anchors, k, limit) && k < |anchors| && Ascending(anchors)
    requires !kept[anchors[k]] && Fits(meter, units, kept, anchors, k, limit)
    ensures var more := kept[anchors[k] := true];
            && KeptSoFar(meter, units, more, anchors, k + 1, limit)
            && AnchorTokens(meter, units, more, anchors, k + 1)
               == AnchorTokens(meter, units, kept, anchors, k) + Cost(meter, units[anchors[k]])
  {
    hide Cost, Spent, RequiredUnits, Ascending, AnchorTokens;
    var more := kept[anchors[k] := true];
    NotYetKept(meter, units, kept, anchors, k, limit);
    KeptStays(meter, units, kept, anchors, k, limit);
    assert anchors[..k + 1] == anchors[..k] + [anchors[k]];
    TokensStep(meter, units, more, anchors, k);
  }

  /** An anchor that is kept anyway or does not fit is passed over. */
  lemma AnchorPassed(meter: Meter, units: seq<Unit>, kept: Choice, anchors: seq<nat>, k: nat, limit: int)
    requires KeptSoFar(meter, units, kept, anchors, k, limit) && k < |anchors| && Ascending(anchors)
    requires kept[anchors[k]] || !Fits(meter, units, kept, anchors, k, limit)
    ensures KeptSoFar(meter, units, kept, anchors, k + 1, limit)
    ensures AnchorTokens(meter, units, kept, anchors, k + 1) == AnchorTokens(meter, units, kept, anchors, k)
  {
    hide Cost, Spent, RequiredUnits, Fits, Ascending, AnchorTokens;
    NotYetKept(meter, units, kept, anchors, k, limit);
    assert anchors[..k + 1] == anchors[..k] + [anchors[k]];
    TokensStep(meter, units, kept, anchors, k);
  }

  lemma TokensStep(meter: Meter, units: seq<Unit>, kept: Choice, anchors: seq<nat>, k: nat)
    requires |kept| == |units| && k < |anchors| && forall j | 0 <= j < |anchors| :: anchors[j] < |units|
    ensures AnchorTokens(meter, units, kept, anchors, k + 1)
            == AnchorTokens(meter, units, kept, anchors, k)
               + if kept[anchors[k]] && !RequiredUnits(meter, units)[anchors[k]]
                 then Cost(meter, units[anchors[k]]) else 0
  {
  }

  /** Adds the anchors that fit, first to last, within their own budget. */
  method KeepAnchors(meter: Meter, units: seq<Unit>, required: Choice, spent: nat, anchors: seq<nat>, limit: nat)
    returns (chosen: Choice, used: nat)
    requires required == RequiredUnits(meter, units) && spent == Spent(meter, units, required) <= limit
    requires forall i | 0 <= i < |units| && required[i] :: Cost(meter, units[i]) > 0
    requires Ascending(anchors) && forall k | 0 <= k < |anchors| :: anchors[k] < |units|
    ensures AnchorsKept(meter, units, chosen, anchors, limit) && used == Spent(meter, units, chosen) <= limit
    ensures forall i | 0 <= i < |units| && chosen[i] :: Cost(meter, units[i]) > 0
  {
    hide Cost, Spent, RequiredUnits, AnchorsKept, KeptIfFits, AnchorTokens;
    chosen, used := required, spent;
    var anchorTokens := 0;
    NothingDecided(meter, units, anchors, limit);
    for k := 0 to |anchors|
      invariant KeptSoFar(meter, units, chosen, anchors, k, limit)
      invariant anchorTokens == AnchorTokens(meter, units, chosen, anchors, k) <= MAX_ANCHOR_TOKENS
      invariant used == spent + anchorTokens == Spent(meter, units, chosen) <= limit
      invariant forall i | 0 <= i < |units| && chosen[i] :: Cost(meter, units[i]) > 0
    {
      var i := anchors[k];
      var cost := Cost(meter, units[i]);
      if chosen[i] || cost == 0 || anchorTokens + cost > MAX_ANCHOR_TOKENS || used + cost > limit {
        AnchorPassed(meter, units, chosen, anchors, k, limit);
        continue;
      }
      AnchorAdded(meter, units, chosen, anchors, k, limit);
      SpentMore(meter, units, chosen, i);
      chosen := chosen[i := true];
      used := used + cost;
      anchorTokens := anchorTokens + cost;
    }
    AllKept(meter, units, chosen, anchors, limit);
  }

  lemma NothingDecided(meter: Meter, units: seq<Unit>, anchors: seq<nat>, limit: int)
    requires forall k | 0 <= k < |anchors| :: anchors[k] < |units|
    ensures KeptSoFar(meter, units, RequiredUnits(meter, units), anchors, 0, limit)
    ensures AnchorTokens(meter, units, RequiredUnits(meter, units), anchors, 0) == 0
  {
    hide RequiredUnits;
  }

  lemma AllKept(meter: Meter, units: seq<Unit>, kept: Choice, anchors: seq<nat>, limit: int)
    requires KeptSoFar(meter, units, kept, anchors, |anchors|, limit)
    requires AnchorTokens(meter, units, kept, anchors, |anchors|) <= MAX_ANCHOR_TOKENS
    ensures AnchorsKept(meter, units, kept, anchors, limit)
  {
    hide Cost, Spent, RequiredUnits, KeptIfFits, AnchorTokens;
    assert anchors[..|anchors|] == anchors;
  }

  /** What the choice was before the window is widened. */
  ghost predicate Anchored(meter: Meter, units: seq<Unit>, start: Choice, anchors: seq<nat>, limit: int) {
    && |start| == |units|
    && AnchorsKept(meter, units, start, anchors, limit)
    && (forall i | 0 <= i < |units| && Required(meter, units, i) :: start[i])
    && (forall i | 0 <= i < |units| && start[i] :: Cost(meter, units[i]) > 0)
    && (forall i | 0 <= i < |units| && start[i] && !Required(meter, units, i) :: i in anchors)
    && PickedAnchors(meter, units, ActiveFrom(units), anchors)
  }

  lemma AnchoredChoice(meter: Meter, units: seq<Unit>, start: Choice, anchors: seq<nat>, limit: int)
    requires Anchored(meter, units, start, anchors, limit)
    ensures |start| == |units| && forall i | 0 <= i < |units| && start[i] :: Cost(meter, units[i]) > 0
    ensures forall i | 0 <= i < |units| && Required(meter, units, i) :: start[i]
  {
    hide Cost, PickedAnchors, AnchorsKept;
  }

  /** The window has been widened back to position i. */
  ghost predicate Widened(meter: Meter, units: seq<Unit>, start: Choice, chosen: Choice, i: nat) {
    && Within(start, chosen) && |chosen| == |units| && i <= ActiveFrom(units)
    && (forall j | 0 <= j < |units| && chosen[j] :: Cost(meter, units[j]) > 0)
    && (forall j | 0 <= j < i && j < |units| :: chosen[j] == start[j])
    && (forall j | i <= j < |units| && IsHistory(meter, units, j) :: chosen[j])
  }

  /** Widens the window back from the active turn until a unit no longer fits. */
  method KeepWindow(meter: Meter, b: Budget, units: seq<Unit>, start: Choice, spent: nat, lastUser: nat,
                    ghost anchors: seq<nat>)
    returns (chosen: Choice, used: nat, ghost window: nat)
    requires units != [] && HistoryLimit(b) <= PromptTokens(b) && lastUser == ActiveFrom(units)
    requires Anchored(meter, units, start, anchors, PromptTokens(b))
    requires spent == Spent(meter, units, start) <= PromptTokens(b)
    ensures Lawful(meter, b, units, chosen, start, anchors, window)
    ensures |chosen| == |units| && used == Spent(meter, units, chosen) <= PromptTokens(b)
  {
    hide Spent, Cost, ActiveFrom, PickedAnchors, AnchorsKept, Lawful, Anchored;
    AnchoredChoice(meter, units, start, anchors, PromptTokens(b));
    chosen, used := start, spent;
    var i := lastUser;
    ghost var widened := false;
    while i > 0
      invariant 0 <= i <= lastUser && Widened(meter, units, start, chosen, i)
      invariant used == Spent(meter, units, chosen) <= PromptTokens(b)
      invariant widened ==> used <= HistoryLimit(b)
      invariant !widened ==> chosen == start
    {
      var j := i - 1;
      if chosen[j] || IsInstruction(units[j]) || Cost(meter, units[j]) == 0 {
        i := j;
        continue;
      }
      if used + Cost(meter, units[j]) > HistoryLimit(b) {
        break;
      }
      SpentMore(meter, units, chosen, j);
      chosen := chosen[j := true];
      used := used + Cost(meter, units[j]);
      widened := true;
      i := j;
    }
    window := i;
    WidenedIsLawful(meter, b, units, start, chosen, anchors, window, widened);
  }

  lemma WidenedIsLawful(meter: Meter, b: Budget, units: seq<Unit>, start: Choice, chosen: Choice,
                        anchors: seq<nat>, window: nat, widened: bool)
    requires Anchored(meter, units, start, anchors, PromptTokens(b)) && Widened(meter, units, start, chosen, window)
    requires Spent(meter, units, chosen) <= PromptTokens(b)
    requires widened ==> Spent(meter, units, chosen) <= HistoryLimit(b)
    requires !widened ==> chosen == start
    requires window > 0 ==>
               && window - 1 < |units| && IsHistory(meter, units, window - 1) && !chosen[window - 1]
               && Spent(meter, units, chosen) + Cost(meter, units[window - 1]) > HistoryLimit(b)
    ensures Lawful(meter, b, units, chosen, start, anchors, window)
  {
    hide Spent, Cost, ActiveFrom, PickedAnchors, AnchorsKept;
    if i :| window <= i < |units| && IsHistory(meter, units, i) && i !in anchors {
      assert chosen[i] && !Required(meter, units, i);
      assert chosen != start;
    }
  }

  lemma ChosenStep(units: seq<Unit>, chosen: Choice, i: nat)
    requires |chosen| == |units| && i < |units|
    ensures Chosen(units[i..], chosen[i..]) ==
            (if chosen[i] then units[i] else []) + Chosen(units[i + 1..], chosen[i + 1..])
  {
    assert units[i..][1..] == units[i + 1..] && chosen[i..][1..] == chosen[i + 1..];
  }

  method JoinChosen(units: seq<Unit>, chosen: Choice) returns (out: seq<Message>)
    requires |chosen| == |units|
    ensures out == Chosen(units, chosen)
  {
    hide Chosen;
    out := [];
    var i := 0;
    assert units[0..] == units && chosen[0..] == chosen;
    while i < |units|
      invariant 0 <= i <= |units|
      invariant Chosen(units, chosen) == out + Chosen(units[i..], chosen[i..])
    {
      ChosenStep(units, chosen, i);
      if chosen[i] {
        out := out + units[i];
      }
      i := i + 1;
    }
    NothingChosen(units[i..], chosen[i..]);
  }

  lemma NothingChosen(units: seq<Unit>, chosen: Choice)
    requires units == [] && chosen == []
    ensures Chosen(units, chosen) == []
  {
  }

  /** What a selection must be: rejected for exactly one of three reasons, or an
      in-order union of whole units under a lawful choice. */
  ghost predicate Correct(meter: Meter, b: Budget, messages: seq<Message>, r: Selection) {
    var units := Units(PROMPT_GROUPING, messages);
    match r
    case Rejected(LittleBudget) => PromptTokens(b) < MINIMUM_BUDGET
    case Rejected(LongInstructions) =>
      PromptTokens(b) >= MINIMUM_BUDGET && Spent(meter, units, Instructions(meter, units)) > PromptTokens(b)
    case Rejected(LongTurn) =>
      && PromptTokens(b) >= MINIMUM_BUDGET && Spent(meter, units, Instructions(meter, units)) <= PromptTokens(b)
      && Spent(meter, units, RequiredUnits(meter, units)) > PromptTokens(b)
    case Selected(out, tokens) =>
      && PromptTokens(b) >= MINIMUM_BUDGET && Spent(meter, units, RequiredUnits(meter, units)) <= PromptTokens(b)
      && exists chosen, kept, anchors, window ::
           Lawful(meter, b, units, chosen, kept, anchors, window)
           && out == Chosen(units, chosen) && tokens == Spent(meter, units, chosen)
  }

  method SelectPromptMessages(meter: Meter, b: Budget, messages: seq<Message>) returns (r: Selection)
    requires b.share <= 100
    ensures messages == [] ==> r == Selected([], 0)
    ensures messages != [] ==> Correct(meter, b, messages, r)
    ensures messages != [] ==>
              (r.Rejected? <==> PromptTokens(b) < MINIMUM_BUDGET
                                || Spent(meter, Units(PROMPT_GROUPING, messages),
                                         RequiredUnits(meter, Units(PROMPT_GROUPING, messages))) > PromptTokens(b))
    ensures r.Selected? ==> r.tokens <= (if messages == [] then 0 else PromptTokens(b))
    ensures r.Selected? && InGrammar(messages) ==> InGrammar(r.messages)
  {
    hide Cost, Spent, InGrammar, Lawful, PickedAnchors, ActiveFrom, Units, Chosen, AnchorsKept;
    if |messages| == 0 {
      EmptyInGrammar();
      return Selected([], 0);
    }
    var limit := PromptTokens(b);
    if limit < MINIMUM_BUDGET {
      return Rejected(LittleBudget);
    }
    var units := GroupUnits(PROMPT_GROUPING, messages);
    assert units != [];
    SpentMonotone(meter, units, Instructions(meter, units), RequiredUnits(meter, units));
    var chosen, used, ok := KeepInstructions(meter, units, limit);
    if !ok {
      return Rejected(LongInstructions);
    }
    var lastUser;
    chosen, used, lastUser, ok := KeepActiveTurn(meter, units, chosen, used, limit);
    if !ok {
      return Rejected(LongTurn);
    }
    var anchors := PickAnchors(meter, units, lastUser);
    PickedInOrder(meter, units, lastUser, anchors);
    chosen, used := KeepAnchors(meter, units, chosen, used, anchors, limit);
    LimitWithin(b);
    AnchoredStart(meter, units, chosen, anchors, limit);
    ghost var window;
    chosen, used, window := KeepWindow(meter, b, units, chosen, used, lastUser, anchors);
    var out := JoinChosen(units, chosen);
    if InGrammar(messages) {
      PromptKeepsExchanges();
      ChosenUnitsAccepted(PROMPT_GROUPING, messages, chosen);
    }
    return Selected(out, used);
  }

  lemma PickedInOrder(meter: Meter, units: seq<Unit>, lastUser: nat, anchors: seq<nat>)
    requires PickedAnchors(meter, units, lastUser, anchors)
    ensures Ascending(anchors) && forall k | 0 <= k < |anchors| :: anchors[k] < |units|
  {
    hide Cost, IsAnchor;
  }

  /** Required units plus anchors are where the window starts from. */
  lemma AnchoredStart(meter: Meter, units: seq<Unit>, start: Choice, anchors: seq<nat>, limit: int)
    requires AnchorsKept(meter, units, start, anchors, limit)
    requires forall i | 0 <= i < |units| && start[i] :: Cost(meter, units[i]) > 0
    requires PickedAnchors(meter, units, ActiveFrom(units), anchors)
    ensures Anchored(meter, units, start, anchors, limit)
  {
    hide Cost, ActiveFrom, IsAnchor, KeptIfFits, AnchorTokens;
  }

  lemma LimitWithin(b: Budget)
    requires b.share <= 100 && PromptTokens(b) >= 0
    ensures HistoryLimit(b) <= PromptTokens(b)
  {
    assert PromptTokens(b) * b.share <= PromptTokens(b) * 100;
  }

  lemma EmptyInGrammar()
    ensures InGrammar([])
  {
    AcceptedIsGrammar([]);
  }

  lemma PromptKeepsExchanges()
    ensures KeepsExchanges(PROMPT_GROUPING)
  {
    Text.CanonicalOfWord("tool");
  }
}
