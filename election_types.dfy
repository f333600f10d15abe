/** The records of the election dataset (`src/types/election.ts`) and the two
    small notions every view shares: a constituency's district label and a
    zero-guarded vote share. */
module ElectionTypes {
  import opened Seqs

  /** One entry of a constituency's top-five list. */
  datatype Candidate = Candidate(
    rank: int,
    name: string,
    party: string,
    votesSecured: nat,
    sourceCitations: string)

  /** The winner or the runner-up of a constituency. */
  datatype CandidateDetails = CandidateDetails(name: string, party: string, votesSecured: nat)

  /** One assembly constituency. An absent `District` is the empty string. */
  datatype Constituency = Constituency(
    acNo: int,
    name: string,
    district: string,
    totalElectors: nat,
    pollingPercentage: string,
    notaVotes: nat,
    winner: CandidateDetails,
    runnerUp: CandidateDetails,
    winningMargin: nat,
    top5: seq<Candidate>)

  /** Estimated ballots cast in a constituency,
      `Math.round(Total_Electors * parseFloat(Polling_Percentage) / 100)`;
      the views take it as a parameter of this type. */
  type PolledVotes = Constituency -> nat

  /** The polled votes of `cs`, summed from the left. */
  function SumPolled(cs: seq<Constituency>, polled: PolledVotes): int {
    SumBy(cs, (c: Constituency) => polled(c) as int)
  }

  const UnknownDistrict: string := "Unknown"

  /** `c.District || "Unknown"`. */
  function DistrictLabel(c: Constituency): (d: string)
    ensures d != ""
    ensures c.district != "" ==> d == c.district
    ensures c.district == "" ==> d == UnknownDistrict
  {
    if c.district == "" then UnknownDistrict else c.district
  }

  /** A percentage `part / whole * 100` left unevaluated, or the `0` that every
      view shows instead when the denominator is not positive. */
  datatype Share = ZeroShare | Ratio(part: int, whole: int)

  /** `whole > 0 ? (part / whole) * 100 : 0`. */
  function ShareOf(part: int, whole: int): (s: Share)
    ensures s.Ratio? <==> whole > 0
    ensures s.Ratio? ==> s.part == part && s.whole == whole && s.whole != 0
  {
    if whole > 0 then Ratio(part, whole) else ZeroShare
  }
}
