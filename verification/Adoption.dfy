/** Deciding what one broker snapshot says about a candidate whose outcome is unknown. */
module Adoption {

  /** A position or a pending order as the broker reports it. */
  datatype BrokerObject = BrokerObject(
    objectId: int, pending: bool, clientOrderId: string, comment: string, tag: string)

  datatype Verdict = Adopt(orderedAs: int) | ConflictingObjects | NothingFound

  predicate OccursAt(text: string, part: string, at: nat) {
    at + |part| <= |text| && text[at..at + |part|] == part
  }

  predicate Contains(text: string, part: string) {
    exists at | 0 <= at <= |text| :: OccursAt(text, part, at)
  }

  /** The comment or the label carries one of the expected client order ids. */
  predicate NamesExpectedId(o: BrokerObject, expected: seq<string>) {
    exists k | 0 <= k < |expected| :: Contains(o.comment, expected[k]) || Contains(o.tag, expected[k])
  }

  predicate NamesCandidate(o: BrokerObject, expected: seq<string>, token: string) {
    Contains(o.comment, token) || Contains(o.tag, token) || NamesExpectedId(o, expected)
  }

  /** Adoptable by its exact identity, which the broker reports. */
  predicate Direct(o: BrokerObject, expected: seq<string>) {
    o.clientOrderId != "" && o.clientOrderId in expected
  }

  /** Adoptable by its metadata, because the broker reports no identity for it. */
  predicate ByMetadata(o: BrokerObject, expected: seq<string>, token: string) {
    o.clientOrderId == "" && (NamesExpectedId(o, expected) || Contains(o.comment, token))
  }

  predicate Adoptable(o: BrokerObject, expected: seq<string>, token: string) {
    Direct(o, expected) || ByMetadata(o, expected, token)
  }

  /** Speaks of the candidate but carries another exact identity. */
  predicate Foreign(o: BrokerObject, expected: seq<string>, token: string) {
    o.clientOrderId != "" && o.clientOrderId !in expected && NamesCandidate(o, expected, token)
  }

  /** The part is somewhere in the text. */
  ghost predicate Inside(part: string, text: string) { exists a: string, b: string :: text == a + part + b }

  lemma ContainsExactly(text: string, part: string)
    ensures Contains(text, part) <==> Inside(part, text)
  {
    if at :| 0 <= at <= |text| && OccursAt(text, part, at) {
      assert text == text[..at] + part + text[at + |part|..];
    }
    if a: string, b: string :| text == a + part + b {
      assert OccursAt(text, part, |a|);
    }
  }

  /** An object that reports an identity speaks for the candidate exactly if that is an expected one, and
      against it exactly if it is another but the object's texts hold an expected one or the token. An
      object that reports none speaks for it exactly if its texts hold an expected one or its comment
      holds the token. */
  lemma MatchesExactly(o: BrokerObject, expected: seq<string>, token: string)
    ensures var named := exists k | 0 <= k < |expected| ::
        Inside(expected[k], o.comment) || Inside(expected[k], o.tag);
      && (o.clientOrderId != "" ==>
            && (Adoptable(o, expected, token) <==> o.clientOrderId in expected)
            && (Foreign(o, expected, token) <==>
                  o.clientOrderId !in expected && (named || Inside(token, o.comment) || Inside(token, o.tag))))
      && (o.clientOrderId == "" ==>
            && (Adoptable(o, expected, token) <==> named || Inside(token, o.comment))
            && !Foreign(o, expected, token))
  {
    ContainsExactly(o.comment, token);
    ContainsExactly(o.tag, token);
    NamesExactly(o, expected);
  }

  lemma NamesExactly(o: BrokerObject, expected: seq<string>)
    ensures NamesExpectedId(o, expected) <==>
      exists k | 0 <= k < |expected| :: Inside(expected[k], o.comment) || Inside(expected[k], o.tag)
  {
    forall k | 0 <= k < |expected|
      ensures Contains(o.comment, expected[k]) <==> Inside(expected[k], o.comment)
      ensures Contains(o.tag, expected[k]) <==> Inside(expected[k], o.tag)
    {
      ContainsExactly(o.comment, expected[k]);
      ContainsExactly(o.tag, expected[k]);
    }
  }

  predicate TwiceClaimed(objects: seq<BrokerObject>, expected: seq<string>) {
    exists i, j | 0 <= i < j < |objects| ::
      Direct(objects[i], expected) && objects[i].clientOrderId == objects[j].clientOrderId
  }

  predicate HasForeign(objects: seq<BrokerObject>, expected: seq<string>, token: string) {
    exists i | 0 <= i < |objects| :: Foreign(objects[i], expected, token)
  }

  /** The first adoptable object at or after position `from`, or |objects|. */
  function FirstAdoptable(objects: seq<BrokerObject>, expected: seq<string>, token: string, from: nat): (k: nat)
    requires from <= |objects|
    ensures from <= k <= |objects|
    ensures k < |objects| ==> Adoptable(objects[k], expected, token)
    ensures forall i | from <= i < k :: !Adoptable(objects[i], expected, token)
    decreases |objects| - from
  {
    if from == |objects| || Adoptable(objects[from], expected, token) then from
    else FirstAdoptable(objects, expected, token, from + 1)
  }

  /** Absence is read off a snapshot exactly when no object in it matches the candidate by
      identity, by expected id or by token. A doubled or foreign identity blocks both
      adoption and absence. Positions are looked at before pending orders, and the first
      adoptable object names the outcome. */
  method ClassifySnapshot(positions: seq<BrokerObject>, pending: seq<BrokerObject>,
                          expected: seq<string>, token: string)
    returns (verdict: Verdict)
    ensures var all := positions + pending;
      && (verdict.ConflictingObjects? <==> TwiceClaimed(all, expected) || HasForeign(all, expected, token))
      && (verdict.NothingFound? <==> forall o | o in all ::
            !Adoptable(o, expected, token) && !Foreign(o, expected, token))
      && (verdict.Adopt? ==>
            exists k | 0 <= k < |all| ::
              Adoptable(all[k], expected, token) && verdict.orderedAs == all[k].objectId
              && forall i | 0 <= i < k :: !Adoptable(all[i], expected, token))
  {
    var all := positions + pending;
    var seen: set<string> := {};
    var matched: seq<BrokerObject> := [];
    var conflict := false;
    var i := 0;
    while i < |all|
      invariant 0 <= i <= |all|
      invariant seen == set j | 0 <= j < i && Direct(all[j], expected) :: all[j].clientOrderId
      invariant conflict <==> TwiceClaimed(all[..i], expected) || HasForeign(all[..i], expected, token)
      invariant matched == [] <==> forall j | 0 <= j < i :: !Adoptable(all[j], expected, token)
      invariant matched != [] ==>
        var k := FirstAdoptable(all, expected, token, 0); k < i && matched[0] == all[k]
    {
      var o := all[i];
      assert all[..i + 1] == all[..i] + [o];
      if o.clientOrderId != "" {
        if o.clientOrderId in expected {
          TwiceStep(all, expected, i);
          if o.clientOrderId in seen {
            conflict := true;
          } else {
            matched := matched + [o];
          }
          seen := seen + {o.clientOrderId};
        } else {
          TwiceStep(all, expected, i);
          if NamesCandidate(o, expected, token) {
            conflict := true;
            assert Foreign(all[..i + 1][i], expected, token);
          }
        }
      } else {
        TwiceStep(all, expected, i);
        if NamesExpectedId(o, expected) || Contains(o.comment, token) {
          matched := matched + [o];
        }
      }
      ForeignStep(all, expected, token, i);
      i := i + 1;
    }
    assert all[..|all|] == all;
    if conflict {
      return ConflictingObjects;
    }
    if matched == [] {
      return NothingFound;
    }
    return Adopt(matched[0].objectId);
  }

  lemma TwiceStep(all: seq<BrokerObject>, expected: seq<string>, i: nat)
    requires i < |all|
    ensures TwiceClaimed(all[..i + 1], expected) <==>
      || TwiceClaimed(all[..i], expected)
      || (Direct(all[i], expected)
          && exists j | 0 <= j < i :: Direct(all[j], expected) && all[j].clientOrderId == all[i].clientOrderId)
  {
    var before, after := all[..i], all[..i + 1];
    if TwiceClaimed(before, expected) {
      var a, b :| 0 <= a < b < |before| && Direct(before[a], expected)
                  && before[a].clientOrderId == before[b].clientOrderId;
      assert Direct(after[a], expected) && after[a].clientOrderId == after[b].clientOrderId;
    }
    if j :| 0 <= j < i && Direct(all[i], expected) && Direct(all[j], expected)
            && all[j].clientOrderId == all[i].clientOrderId {
      assert Direct(after[j], expected) && after[j].clientOrderId == after[i].clientOrderId;
    }
    if TwiceClaimed(after, expected) {
      var a, b :| 0 <= a < b < |after| && Direct(after[a], expected)
                  && after[a].clientOrderId == after[b].clientOrderId;
      if b < i {
        assert Direct(before[a], expected) && before[a].clientOrderId == before[b].clientOrderId;
      }
    }
  }

  lemma ForeignStep(all: seq<BrokerObject>, expected: seq<string>, token: string, i: nat)
    requires i < |all|
    ensures HasForeign(all[..i + 1], expected, token) <==>
      HasForeign(all[..i], expected, token) || Foreign(all[i], expected, token)
  {
    var before, after := all[..i], all[..i + 1];
    if k :| 0 <= k < |before| && Foreign(before[k], expected, token) {
      assert Foreign(after[k], expected, token);
    }
    if k :| 0 <= k < |after| && Foreign(after[k], expected, token) {
      if k < i { assert Foreign(before[k], expected, token); }
    }
    if Foreign(all[i], expected, token) { assert Foreign(after[i], expected, token); }
  }
}
