/** The local list updates the dashboard pages apply after a mutation
    succeeds, instead of fetching the list again: `filter` out an id, `map`
    a record with an id to the server's copy, or append. The statistics
    shown beside the list are meant to be `calculateRenewalStats` of it. */
module ListUpdates {
  import opened Seqs
  import opened Domain
  import opened RenewalService

  /** `renewals.filter(r => r.id !== id)`. */
  function RemoveId(s: seq<Renewal>, id: string): (r: seq<Renewal>)
    ensures IsSubseq(r, s)
    ensures forall x :: x in r <==> x in s && x.id != id
    ensures forall x :: x in s ==> multiset(r)[x] == if x.id != id then multiset(s)[x] else 0
  {
    FilterMultiplicity(s, (x: Renewal) => x.id != id);
    Filter(s, (x: Renewal) => x.id != id)
  }

  /** `renewals.map(r => r.id === id ? v : r)`. */
  function ReplaceId(s: seq<Renewal>, id: string, v: Renewal): (r: seq<Renewal>)
    ensures |r| == |s|
    ensures forall i :: 0 <= i < |s| ==> r[i] == if s[i].id == id then v else s[i]
  {
    if |s| == 0 then []
    else [if s[0].id == id then v else s[0]] + ReplaceId(s[1..], id, v)
  }

  /** Removing an id takes out exactly the records that carry it: the
      rest keep their order, and none of them is lost. */
  lemma {:induction false} RemoveIdCount(s: seq<Renewal>, id: string)
    ensures |RemoveId(s, id)| == |s| - |Filter(s, (x: Renewal) => x.id == id)|
  {
    if |s| > 0 {
      RemoveIdCount(s[1..], id);
      assert RemoveId(s, id) == (if s[0].id != id then [s[0]] else []) + RemoveId(s[1..], id);
      assert Filter(s, (x: Renewal) => x.id == id)
        == (if s[0].id == id then [s[0]] else []) + Filter(s[1..], (x: Renewal) => x.id == id);
    }
  }

  /** Replacing the records of an id by a copy with the same id, then
      removing that id, is removing it: an edit never resurrects or hides
      any other record. */
  lemma {:induction false} ReplaceThenRemove(s: seq<Renewal>, id: string, v: Renewal)
    requires v.id == id
    ensures RemoveId(ReplaceId(s, id, v), id) == RemoveId(s, id)
  {
    if |s| > 0 {
      ReplaceThenRemove(s[1..], id, v);
      var t := ReplaceId(s, id, v);
      assert t[1..] == ReplaceId(s[1..], id, v);
      FilterCons(t, (x: Renewal) => x.id != id);
      FilterCons(s, (x: Renewal) => x.id != id);
    }
  }

  /** The statistics describe the list. */
  predicate StatsMatch(list: seq<Renewal>, stats: Stats)
  {
    stats == CalculateRenewalStats(list)
  }

  /** Appending a record grows the statistics by that record alone. */
  lemma AppendStats(s: seq<Renewal>, x: Renewal)
    ensures CalculateRenewalStats(s + [x]).total == CalculateRenewalStats(s).total + 1
    ensures CalculateRenewalStats(s + [x]).totalCost == CalculateRenewalStats(s).totalCost + x.cost
  {
    TallyAppend(s, x, RenewalStatus, RenewalCost);
  }
}
