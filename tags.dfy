/** The two closed tag sets of timeline records, ACTIVITIES and EVENTS,
    and their linear index lookup. */
module Tags {

  const Sleep: string := "sleep"
  const TummyTime: string := "tummy-times"
  const Feeding: string := "feedings"
  const Change: string := "changes"

  /** ACTIVITIES.ALL, in its declared order. */
  const Activities: seq<string> := [Feeding, Sleep, TummyTime]

  /** EVENTS.ALL. */
  const Events: seq<string> := [Change]

  /** The scan loop shared by ACTIVITIES.index and EVENTS.index: the first
      position holding `s`, or -1 when `s` is absent. */
  method IndexIn(all: seq<string>, s: string) returns (r: int)
    ensures -1 <= r < |all|
    ensures r == -1 <==> s !in all
    ensures 0 <= r ==> all[r] == s && s !in all[..r]
  {
    for i := 0 to |all|
      invariant s !in all[..i]
    {
      if all[i] == s {
        return i;
      }
    }
    return -1;
  }

  /** ACTIVITIES.index. */
  method ActivityIndex(s: string) returns (r: int)
    ensures r == -1 <==> s != Feeding && s != Sleep && s != TummyTime
    ensures r == 0 <==> s == Feeding
    ensures r == 1 <==> s == Sleep
    ensures r == 2 <==> s == TummyTime
  {
    r := IndexIn(Activities, s);
    assert Activities[..0] == [] && Activities[..1] == [Feeding] && Activities[..2] == [Feeding, Sleep];
  }

  /** EVENTS.index. */
  method EventIndex(s: string) returns (r: int)
    ensures r == -1 <==> s != Change
    ensures r == 0 <==> s == Change
  {
    r := IndexIn(Events, s);
    assert Events[..0] == [];
  }

  /** The tags the two sets hold, one by one. */
  lemma KnownTags(tag: string)
    ensures (tag in Activities || tag in Events) <==> (tag == Feeding || tag == Sleep || tag == TummyTime || tag == Change)
  {
  }

  /** The four tags are pairwise distinct, so each lookup is unambiguous. */
  lemma TagsDistinct()
    ensures forall i, j :: 0 <= i < j < |Activities| ==> Activities[i] != Activities[j]
    ensures Change !in Activities
  {
    assert Feeding[0] != Sleep[0] && Feeding[0] != TummyTime[0] && Sleep[0] != TummyTime[0];
    assert Change[0] != Feeding[0] && Change[0] != Sleep[0] && Change[0] != TummyTime[0];
  }
}
