/** The votes bar chart (`src/components/dashboard/VotesBarChart.tsx`): one bar
    per candidate with a shortened label, and the chart's party legend. */
module VotesBarChart {
  import opened Seqs
  import opened ElectionTypes

  const MaxLabelLength: nat := 15

  /** `name.length > 15 ? name.substring(0, 15) + "..." : name`. */
  function ShortName(name: string): (r: string)
    ensures |name| > MaxLabelLength ==> r == name[..MaxLabelLength] + "..." && |r| == MaxLabelLength + 3
    ensures |name| <= MaxLabelLength ==> r == name
    ensures |r| <= MaxLabelLength + 3
  {
    if |name| > MaxLabelLength then name[..MaxLabelLength] + "..." else name
  }

  /** One bar: its label, the full name for the tooltip, the votes and the party. */
  datatype BarDatum = BarDatum(name: string, fullName: string, votes: nat, party: string)

  /** `data`: one bar per candidate, in order. */
  function BarData(candidates: seq<Candidate>): (r: seq<BarDatum>)
    ensures |r| == |candidates|
    ensures forall i :: 0 <= i < |r| ==>
      && r[i].name == ShortName(candidates[i].name)
      && r[i].fullName == candidates[i].name
      && r[i].votes == candidates[i].votesSecured
      && r[i].party == candidates[i].party
  {
    seq(|candidates|, i requires 0 <= i < |candidates| =>
      BarDatum(ShortName(candidates[i].name), candidates[i].name, candidates[i].votesSecured, candidates[i].party))
  }

  /** `data.map(d => d.party)`. */
  function BarParties(data: seq<BarDatum>): (r: seq<string>)
    ensures |r| == |data|
    ensures forall i :: 0 <= i < |data| ==> r[i] == data[i].party
  {
    seq(|data|, i requires 0 <= i < |data| => data[i].party)
  }

  /** `uniqueParties`: each party of the bars once, in order of first appearance. */
  function UniqueParties(data: seq<BarDatum>): (r: seq<string>)
    ensures Distinct(r)
    ensures forall i :: 0 <= i < |data| ==> data[i].party in r
    ensures forall i :: 0 <= i < |r| ==> r[i] in BarParties(data)
    ensures forall i, j :: 0 <= i < j < |r| ==> IndexOf(BarParties(data), r[i]) < IndexOf(BarParties(data), r[j])
  {
    DedupSpec(BarParties(data));
    Dedup(BarParties(data))
  }

  /** The tooltip always has the whole name, and the label starts with it. */
  lemma LabelIsPrefixOfName(candidates: seq<Candidate>)
    ensures var d := BarData(candidates);
            forall i :: 0 <= i < |d| ==>
              var n := if |d[i].fullName| < MaxLabelLength then |d[i].fullName| else MaxLabelLength;
              d[i].name[..n] == d[i].fullName[..n]
  {
  }
}
