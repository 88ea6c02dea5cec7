/** Chat messages, and the grouping of a transcript into indivisible units. */
module Chat {
  datatype Option<+T> = None | Some(value: T)

  datatype ToolCall = ToolCall(id: string, name: string, arguments: string)

  datatype Message = Message(
    role: string,
    content: Option<string>,
    name: string,
    toolCallID: string,
    toolCalls: seq<ToolCall>)

  /** How a trimmer cuts a transcript: which messages open a group, and which
      messages following an opener belong to it. */
  datatype Grouping = Grouping(opens: Message -> bool, follows: Message -> bool)

  function Flatten<T>(parts: seq<seq<T>>): seq<T> {
    if parts == [] then [] else parts[0] + Flatten(parts[1..])
  }

  lemma FlattenAppend<T>(a: seq<seq<T>>, b: seq<seq<T>>)
    ensures Flatten(a + b) == Flatten(a) + Flatten(b)
  {
    if a == [] {
      assert a + b == b;
    } else {
      assert (a + b)[1..] == a[1..] + b;
      FlattenAppend(a[1..], b);
    }
  }

  lemma FlattenStep<T>(parts: seq<seq<T>>, k: nat)
    requires k < |parts|
    ensures Flatten(parts[k..]) == parts[k] + Flatten(parts[k + 1..])
  {
    assert parts[k..][1..] == parts[k + 1..];
  }

  /** How many messages at the front of the transcript are followers. */
  function Followers(g: Grouping, messages: seq<Message>): (n: nat)
    ensures n <= |messages|
    ensures forall i | 0 <= i < n :: g.follows(messages[i])
    ensures n < |messages| ==> !g.follows(messages[n])
  {
    if messages != [] && g.follows(messages[0]) then 1 + Followers(g, messages[1..]) else 0
  }

  function UnitLength(g: Grouping, messages: seq<Message>): (n: nat)
    requires messages != []
    ensures 1 <= n <= |messages|
  {
    if g.opens(messages[0]) then 1 + Followers(g, messages[1..]) else 1
  }

  /** The transcript cut into units: an opener with its followers, or one message. */
  function Units(g: Grouping, messages: seq<Message>): (units: seq<seq<Message>>)
    ensures Flatten(units) == messages
    ensures forall u | u in units :: u != []
  {
    if messages == [] then []
    else
      var n := UnitLength(g, messages);
      assert messages[..n] + messages[n..] == messages;
      [messages[..n]] + Units(g, messages[n..])
  }

  /** An opener with all the followers that come next, or one message. */
  ghost predicate WellCutAt(g: Grouping, units: seq<seq<Message>>, i: nat)
    requires i < |units|
  {
    && units[i] != []
    && (if g.opens(units[i][0])
        then (forall k | 1 <= k < |units[i]| :: g.follows(units[i][k]))
             && (i + 1 < |units| && units[i + 1] != [] ==> !g.follows(units[i + 1][0]))
        else |units[i]| == 1)
  }

  /** Together with their concatenation this is what the units of a transcript are. */
  lemma {:induction false} UnitsWellCut(g: Grouping, messages: seq<Message>, i: nat)
    requires i < |Units(g, messages)|
    ensures WellCutAt(g, Units(g, messages), i)
    decreases |messages|
  {
    var n := UnitLength(g, messages);
    var rest := Units(g, messages[n..]);
    FirstUnit(g, messages);
    if i > 0 {
      UnitsWellCut(g, messages[n..], i - 1);
      assert WellCutAt(g, rest, i - 1);
    } else if rest != [] {
      assert messages[n..] == rest[0] + Flatten(rest[1..]) && messages[n..][0] == messages[n];
    }
  }

  lemma FirstUnit(g: Grouping, messages: seq<Message>)
    requires messages != []
    ensures var n := UnitLength(g, messages);
            && Units(g, messages) == [messages[..n]] + Units(g, messages[n..])
            && (g.opens(messages[0]) ==>
                  && (forall k | 1 <= k < n :: g.follows(messages[k]))
                  && (n < |messages| ==> !g.follows(messages[n])))
            && (!g.opens(messages[0]) ==> n == 1)
  {
    assert forall k | 1 <= k < |messages| :: messages[k] == messages[1..][k - 1];
  }

  lemma NextUnit(g: Grouping, messages: seq<Message>, i: nat, end: nat)
    requires i < end <= |messages| && UnitLength(g, messages[i..]) == end - i
    ensures Units(g, messages[i..]) == [messages[i..end]] + Units(g, messages[end..])
  {
    assert messages[i..][..end - i] == messages[i..end];
    assert messages[i..][end - i..] == messages[end..];
  }

  lemma NoUnits(g: Grouping, messages: seq<Message>)
    requires messages == []
    ensures Units(g, messages) == []
  {
  }

  method GroupEnd(g: Grouping, messages: seq<Message>, i: nat) returns (end: nat)
    requires i < |messages|
    ensures i < end <= |messages| && UnitLength(g, messages[i..]) == end - i
  {
    end := i + 1;
    assert messages[i..][1..] == messages[end..];
    if g.opens(messages[i]) {
      while end < |messages| && g.follows(messages[end])
        invariant i < end <= |messages|
        invariant Followers(g, messages[i + 1..]) == end - i - 1 + Followers(g, messages[end..])
      {
        assert messages[end..][1..] == messages[end + 1..];
        end := end + 1;
      }
    }
  }

  method GroupUnits(g: Grouping, messages: seq<Message>) returns (units: seq<seq<Message>>)
    ensures units == Units(g, messages)
  {
    hide Units, UnitLength;
    units := [];
    var i := 0;
    assert messages[0..] == messages;
    while i < |messages|
      invariant 0 <= i <= |messages|
      invariant Units(g, messages) == units + Units(g, messages[i..])
    {
      var end := GroupEnd(g, messages, i);
      NextUnit(g, messages, i, end);
      units := units + [messages[i..end]];
      i := end;
    }
    NoUnits(g, messages[i..]);
  }

  /** The units whose flag is set, in order. */
  function Chosen<T>(units: seq<seq<T>>, chosen: seq<bool>): seq<T>
    requires |chosen| == |units|
  {
    if units == [] then []
    else (if chosen[0] then units[0] else []) + Chosen(units[1..], chosen[1..])
  }

  /** What the units from position k on spell is what remains of the transcript
      once the messages of the first k units are cut off. */
  lemma UnitsSuffix<T>(units: seq<seq<T>>, k: nat)
    requires k <= |units|
    ensures |Flatten(units[..k])| <= |Flatten(units)|
    ensures Flatten(units[k..]) == Flatten(units)[|Flatten(units[..k])|..]
  {
    assert units[..k] + units[k..] == units;
    FlattenAppend(units[..k], units[k..]);
  }
}
