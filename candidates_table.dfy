/** The top-five table (`src/components/dashboard/CandidatesTable.tsx`): one row
    per candidate with its rank badge and vote share, and a footer with the
    top-five total. */
module CandidatesTable {
  import opened Seqs
  import opened Text
  import opened ElectionTypes

  const WinnerStyle: string := "bg-winner text-white"
  const RunnerUpStyle: string := "bg-secondary text-secondary-foreground"
  const OtherStyle: string := "bg-muted text-muted-foreground"

  /** The rank badge's classes. */
  function RankStyle(rank: int): (s: string)
    ensures s == WinnerStyle <==> rank == 1
    ensures s == RunnerUpStyle <==> rank == 2
    ensures s == OtherStyle <==> rank != 1 && rank != 2
  {
    if rank == 1 then WinnerStyle else if rank == 2 then RunnerUpStyle else OtherStyle
  }

  /** `totalVotes > 0 ? (votes / totalVotes) * 100 : 0`, where an omitted
      `totalVotes` is `undefined` and `undefined > 0` is false. */
  function GuardedShare(votes: int, totalVotes: Option<int>): (s: Share)
    ensures s.Ratio? <==> totalVotes.Some? && totalVotes.value > 0
    ensures s.Ratio? ==> s == Ratio(votes, totalVotes.value)
  {
    match totalVotes
    case None => ZeroShare
    case Some(t) => ShareOf(votes, t)
  }

  function Votes(c: Candidate): int {
    c.votesSecured
  }

  /** `top5TotalVotes`: the candidates' votes added up, 0 for no candidates. */
  function Top5TotalVotes(candidates: seq<Candidate>): (t: int)
    ensures candidates == [] ==> t == 0
    ensures t >= 0
    ensures forall i :: 0 <= i < |candidates| ==> t >= candidates[i].votesSecured
  {
    SumByNonNegative(candidates, Votes);
    forall i | 0 <= i < |candidates| ensures SumBy(candidates, Votes) >= candidates[i].votesSecured {
      SumByAtLeastTerm(candidates, Votes, i);
    }
    SumBy(candidates, Votes)
  }

  /** One table row. */
  datatype Row = Row(rank: int, name: string, party: string, votesSecured: nat,
                     highlighted: bool, rankStyle: string, share: Share)

  function RowOf(c: Candidate, totalVotes: Option<int>): Row {
    Row(c.rank, c.name, c.party, c.votesSecured, c.rank == 1, RankStyle(c.rank), GuardedShare(c.votesSecured, totalVotes))
  }

  /** The rendered table: rows, footer total and footer share. */
  datatype Table = Table(rows: seq<Row>, top5Total: int, footerShare: Share)

  function RenderTable(candidates: seq<Candidate>, totalVotes: Option<int>): (t: Table)
    ensures |t.rows| == |candidates|
    ensures forall i :: 0 <= i < |t.rows| ==>
      && t.rows[i].rank == candidates[i].rank
      && t.rows[i].name == candidates[i].name
      && t.rows[i].party == candidates[i].party
      && t.rows[i].votesSecured == candidates[i].votesSecured
    ensures t.top5Total == Top5TotalVotes(candidates)
  {
    var total := Top5TotalVotes(candidates);
    Table(seq(|candidates|, i requires 0 <= i < |candidates| => RowOf(candidates[i], totalVotes)),
          total, GuardedShare(total, totalVotes))
  }

  /** Without a positive denominator every share, in the rows and the footer,
      shows as `0.00`; with one, each share is its votes over that total. */
  lemma SharesGuarded(candidates: seq<Candidate>, totalVotes: Option<int>)
    ensures var t := RenderTable(candidates, totalVotes);
            (totalVotes.None? || totalVotes.value <= 0) ==>
              t.footerShare == ZeroShare && forall i :: 0 <= i < |t.rows| ==> t.rows[i].share == ZeroShare
    ensures var t := RenderTable(candidates, totalVotes);
            (totalVotes.Some? && totalVotes.value > 0) ==>
              && t.footerShare == Ratio(t.top5Total, totalVotes.value)
              && forall i :: 0 <= i < |t.rows| ==> t.rows[i].share == Ratio(candidates[i].votesSecured, totalVotes.value)
  {
  }

  /** The badge and the highlighted row both single out rank 1 only. */
  lemma WinnerRowMarked(candidates: seq<Candidate>, totalVotes: Option<int>)
    ensures var t := RenderTable(candidates, totalVotes);
            forall i :: 0 <= i < |t.rows| ==>
              (t.rows[i].highlighted <==> t.rows[i].rankStyle == WinnerStyle) &&
              (t.rows[i].highlighted <==> candidates[i].rank == 1)
  {
  }
}
