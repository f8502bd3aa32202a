/**
  What the message normalisers share: the text of a `content` value and the rule that
  puts a system instruction in front of the first user turn, stated once as a reference
  definition over the finished message list.
 */
module Canonical {
  import opened Wrappers
  import opened Text
  import opened Protocol

  /**
    `.filter(item => item.type === "text").map(item => item.text)`; a part without
    `text` contributes the empty string, as `Array.prototype.join` renders `undefined`.
   */
  function TypedTexts(ps: seq<Part>): (r: seq<string>)
    ensures |r| <= |ps|
  {
    if |ps| == 0 then []
    else (if ps[0].kind == "text" then [ps[0].text.GetOr("")] else []) + TypedTexts(ps[1..])
  }

  /** `TypedTexts` keeps order: the texts of a concatenation are the concatenated texts. */
  lemma {:induction false} TypedTextsAppend(a: seq<Part>, b: seq<Part>)
    ensures TypedTexts(a + b) == TypedTexts(a) + TypedTexts(b)
    decreases |a|
  {
    if a == [] {
      assert a + b == b;
    } else {
      assert (a + b)[0] == a[0];
      assert (a + b)[1..] == a[1..] + b;
      TypedTextsAppend(a[1..], b);
    }
  }

  /**
    Every part typed `text` contributes its text (or ""), and every text kept comes from a
    part typed `text`.
   */
  lemma {:induction false} TypedTextsMembers(ps: seq<Part>)
    ensures forall j :: 0 <= j < |ps| && ps[j].kind == "text" ==> ps[j].text.GetOr("") in TypedTexts(ps)
    ensures forall t :: t in TypedTexts(ps) ==> exists j :: 0 <= j < |ps| && ps[j].kind == "text" && ps[j].text.GetOr("") == t
    decreases |ps|
  {
    if |ps| > 0 {
      TypedTextsMembers(ps[1..]);
      assert forall j :: 0 < j < |ps| ==> ps[j] == ps[1..][j - 1];
      forall t | t in TypedTexts(ps)
        ensures exists j :: 0 <= j < |ps| && ps[j].kind == "text" && ps[j].text.GetOr("") == t
      {
        if t in TypedTexts(ps[1..]) {
          var k :| 0 <= k < |ps[1..]| && ps[1..][k].kind == "text" && ps[1..][k].text.GetOr("") == t;
          assert ps[k + 1] == ps[1..][k];
        } else {
          assert ps[0].kind == "text" && ps[0].text.GetOr("") == t;
        }
      }
    }
  }

  /** The text of a message `content`: missing is "", a string is itself, an array is its text parts joined by "\n". */
  function ContentText(c: Content): string {
    match c
    case NoContent => ""
    case TextContent(s) => s
    case PartList(ps) => Join(TypedTexts(ps), "\n")
  }

  /**
    Joining loses nothing: when no text part holds a newline, splitting the text of an
    array content on "\n" gives back its text parts, in order.
   */
  lemma ContentTextRecoversParts(ps: seq<Part>)
    requires |TypedTexts(ps)| >= 1
    requires forall i :: 0 <= i < |TypedTexts(ps)| ==> '\n' !in TypedTexts(ps)[i]
    ensures Split(ContentText(PartList(ps)), '\n') == TypedTexts(ps)
  {
    SplitJoin(TypedTexts(ps), '\n');
  }

  /** `${systemText}\n\n${content}`. */
  function WithSystem(system: string, text: string): string {
    system + "\n\n" + text
  }

  /** `ks[i]` is the first user turn of `ks`. */
  predicate IsFirstUser(ks: seq<KimiMessage>, i: int)
    requires 0 <= i < |ks|
  {
    ks[i].role == User && forall j :: 0 <= j < i ==> ks[j].role != User
  }

  /**
    Reference definition of system-instruction placement: a non-empty `system` is put in
    front of the first user turn and nowhere else; without a user turn it is dropped.
   */
  function PrependSystem(ks: seq<KimiMessage>, system: string): (r: seq<KimiMessage>)
    ensures |r| == |ks|
    ensures forall i :: 0 <= i < |ks| ==> r[i].role == ks[i].role
    ensures forall i :: 0 <= i < |ks| && ks[i].role == Assistant ==> r[i] == ks[i]
  {
    seq(|ks|, i requires 0 <= i < |ks| => Placed(ks, system, i))
  }

  /** Turn `i` once the system text is placed. */
  function Placed(ks: seq<KimiMessage>, system: string, i: int): KimiMessage
    requires 0 <= i < |ks|
  {
    if system != "" && IsFirstUser(ks, i) then KimiMessage(User, WithSystem(system, ks[i].content)) else ks[i]
  }

  /** At most one turn is changed: every turn after a changed one is kept as it is. */
  lemma PlacedOnce(ks: seq<KimiMessage>, system: string)
    ensures var r := PrependSystem(ks, system);
      forall i, j :: 0 <= i < j < |ks| && r[i] != ks[i] ==> r[j] == ks[j]
  {
    var r := PrependSystem(ks, system);
    forall i, j | 0 <= i < j < |ks| && r[i] != ks[i]
      ensures r[j] == ks[j]
    {
      assert IsFirstUser(ks, i);
      assert !IsFirstUser(ks, j) by { assert ks[i].role == User; }
    }
  }

  /**
    The text of the last turn once the system text is placed: the last turn's own text,
    prefixed by the system text when that turn is the first user turn.
   */
  function LastSent(ks: seq<KimiMessage>, system: string): (t: string)
    requires |ks| > 0
    ensures t == PrependSystem(ks, system)[|ks| - 1].content
    ensures system == "" || ks[|ks| - 1].role == Assistant ==> t == ks[|ks| - 1].content
  {
    var last := |ks| - 1;
    if system != "" && IsFirstUser(ks, last) then WithSystem(system, ks[last].content) else ks[last].content
  }

  /** How `PrependSystem` unfolds over the head of the list: the fold the normalisers perform. */
  lemma PrependSystemCons(k: KimiMessage, ks: seq<KimiMessage>, system: string)
    ensures PrependSystem([k] + ks, system)
         == if system != "" && k.role == User then [KimiMessage(User, WithSystem(system, k.content))] + ks
            else [k] + PrependSystem(ks, system)
  {
    if system != "" && k.role == User {
      PlaceAtHead(k, ks, system);
    } else {
      PlacePastHead(k, ks, system);
    }
  }

  /** A user turn at the head takes the system text, and the rest is kept as it is. */
  lemma PlaceAtHead(k: KimiMessage, ks: seq<KimiMessage>, system: string)
    requires system != "" && k.role == User
    ensures PrependSystem([k] + ks, system) == [KimiMessage(User, WithSystem(system, k.content))] + ks
  {
    var all := [k] + ks;
    var lhs := PrependSystem(all, system);
    var rhs := [KimiMessage(User, WithSystem(system, k.content))] + ks;
    forall i | 0 < i < |all|
      ensures lhs[i] == rhs[i]
    {
      PlacedBehindUser(k, ks, system, i);
    }
    assert lhs[0] == rhs[0];
  }

  lemma PlacedBehindUser(k: KimiMessage, ks: seq<KimiMessage>, system: string, i: nat)
    requires k.role == User && 0 < i <= |ks|
    ensures Placed([k] + ks, system, i) == ks[i - 1]
  {
    var all := [k] + ks;
    assert all[i] == ks[i - 1];
    assert !IsFirstUser(all, i) by { assert all[0].role == User; }
  }

  /** A head that does not take the system text leaves the placement to the rest. */
  lemma PlacePastHead(k: KimiMessage, ks: seq<KimiMessage>, system: string)
    requires system == "" || k.role != User
    ensures PrependSystem([k] + ks, system) == [k] + PrependSystem(ks, system)
  {
    var all := [k] + ks;
    var lhs := PrependSystem(all, system);
    var rhs := [k] + PrependSystem(ks, system);
    forall i | 0 < i < |all|
      ensures lhs[i] == rhs[i]
    {
      PlacedPastHead(k, ks, system, i);
    }
    assert lhs[0] == rhs[0];
  }

  lemma PlacedPastHead(k: KimiMessage, ks: seq<KimiMessage>, system: string, i: nat)
    requires system == "" || k.role != User
    requires 0 < i <= |ks|
    ensures Placed([k] + ks, system, i) == Placed(ks, system, i - 1)
  {
    var all := [k] + ks;
    assert all[i] == ks[i - 1];
    if k.role != User {
      FirstUserShift(k, ks, i);
    }
  }

  /** Past a non-user head, the first user turn is the first user turn of the rest. */
  lemma FirstUserShift(k: KimiMessage, ks: seq<KimiMessage>, i: nat)
    requires k.role != User && 0 < i <= |ks|
    ensures IsFirstUser([k] + ks, i) <==> IsFirstUser(ks, i - 1)
  {
    var all := [k] + ks;
    if IsFirstUser(ks, i - 1) {
      forall j | 0 <= j < i
        ensures all[j].role != User
      {
        if j > 0 { assert all[j] == ks[j - 1]; }
      }
    }
    if IsFirstUser(all, i) {
      forall j | 0 <= j < i - 1
        ensures ks[j].role != User
      {
        assert all[j + 1] == ks[j];
      }
    }
  }

  /** What the chat controller reads from the placed turns: the text `LastSent` describes. */
  lemma SentOfPlaced(ks: seq<KimiMessage>, system: string)
    requires |ks| > 0
    ensures var cm := AsChatMessages(PrependSystem(ks, system));
      ContentText(cm[|cm| - 1].content) == LastSent(ks, system)
  {
    var placed := PrependSystem(ks, system);
    var cm := AsChatMessages(placed);
    assert cm[|cm| - 1] == AsChatMessage(placed[|ks| - 1]);
  }

  /** `PrependSystem` with an empty instruction changes nothing. */
  lemma PrependNothing(ks: seq<KimiMessage>)
    ensures PrependSystem(ks, "") == ks
  {
  }

  /** The name of a canonical role, as the backend request carries it. */
  function RoleName(r: Role): string {
    match r
    case User => "user"
    case Assistant => "assistant"
  }

  /** A canonical message handed on to the chat controller: its content is a plain string. */
  function AsChatMessage(k: KimiMessage): Message {
    Message(RoleName(k.role), TextContent(k.content))
  }

  function AsChatMessages(ks: seq<KimiMessage>): (ms: seq<Message>)
    ensures |ms| == |ks|
    ensures forall i :: 0 <= i < |ks| ==> ms[i] == AsChatMessage(ks[i])
  {
    seq(|ks|, i requires 0 <= i < |ks| => AsChatMessage(ks[i]))
  }
}
