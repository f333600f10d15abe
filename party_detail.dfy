/** A party's page (`src/pages/PartyDetail.tsx`): the seats it won, its votes
    counted once per seat, its share of the polled votes and its wins per
    district. */
module PartyDetail {
  import opened Seqs
  import opened Text
  import opened Dicts
  import opened ElectionTypes
  import PartyStatsSummary

  /** `top5.find(cand => cand.Party === party)`. */
  function FindParty(top5: seq<Candidate>, party: string): (r: Option<Candidate>)
    ensures r.None? <==> forall i :: 0 <= i < |top5| ==> top5[i].party != party
    ensures r.Some? ==> exists i :: 0 <= i < |top5| && top5[i] == r.value && FirstListing(top5, party, i)
    decreases |top5|
  {
    if top5 == [] then None
    else if top5[0].party == party then
      assert FirstListing(top5, party, 0);
      Some(top5[0])
    else
      var r := FindParty(top5[1..], party);
      if r.Some? then
        var i :| 0 <= i < |top5[1..]| && top5[1..][i] == r.value && FirstListing(top5[1..], party, i);
        assert FirstListing(top5, party, i + 1);
        r
      else r
  }

  /** Position `i` holds the first entry of `party`. */
  predicate FirstListing(top5: seq<Candidate>, party: string, i: int) {
    0 <= i < |top5| && top5[i].party == party && forall j :: 0 <= j < i ==> top5[j].party != party
  }

  /** The votes a seat contributes to the party's total: its first entry's. */
  function FirstVotes(top5: seq<Candidate>, party: string): nat {
    match FindParty(top5, party)
    case None => 0
    case Some(e) => e.votesSecured
  }

  /** `totalVotes` as specified: the first entry of the party in each seat. */
  function FirstMatchVotes(cs: seq<Constituency>, party: string): int {
    SumBy(cs, (c: Constituency) => FirstVotes(c.top5, party) as int)
  }

  /** The `forEach` that accumulates `totalVotes`. */
  method TotalVotes(cs: seq<Constituency>, party: string) returns (totalVotes: nat)
    ensures totalVotes == FirstMatchVotes(cs, party)
  {
    totalVotes := 0;
    for i := 0 to |cs|
      invariant totalVotes == FirstMatchVotes(cs[..i], party)
    {
      assert cs[..i + 1][..i] == cs[..i];
      var partyPerformance := FindParty(cs[i].top5, party);
      if partyPerformance.Some? {
        totalVotes := totalVotes + partyPerformance.value.votesSecured;
      }
    }
    assert cs[..|cs|] == cs;
  }

  /** The party lists at most one candidate in the seat. */
  predicate ListedAtMostOnce(top5: seq<Candidate>, party: string) {
    forall i, j :: 0 <= i < j < |top5| && top5[i].party == party ==> top5[j].party != party
  }

  lemma CandidateVotesCons(e: Candidate, s: seq<Candidate>, party: string)
    ensures PartyStatsSummary.CandidateVotes([e] + s, party)
         == (if e.party == party then e.votesSecured else 0) + PartyStatsSummary.CandidateVotes(s, party)
  {
    var f := (x: Candidate) => if x.party == party then x.votesSecured as int else 0;
    SumByAppend([e], s, f);
    SumBySingle(e, f);
  }

  lemma CandidateVotesNonNegative(s: seq<Candidate>, party: string)
    ensures PartyStatsSummary.CandidateVotes(s, party) >= 0
  {
    SumByNonNegative(s, (x: Candidate) => if x.party == party then x.votesSecured as int else 0);
  }

  /** In one seat, the first entry's votes are at most the votes of all the
      party's entries, and equal to them when the party is listed at most once. */
  lemma {:induction false} FirstVotesAtMostAll(top5: seq<Candidate>, party: string)
    ensures FirstVotes(top5, party) <= PartyStatsSummary.CandidateVotes(top5, party)
    ensures ListedAtMostOnce(top5, party) ==> FirstVotes(top5, party) == PartyStatsSummary.CandidateVotes(top5, party)
    decreases |top5|
  {
    if top5 != [] {
      var e, rest := top5[0], top5[1..];
      assert top5 == [e] + rest;
      CandidateVotesCons(e, rest, party);
      FirstVotesAtMostAll(rest, party);
      CandidateVotesNonNegative(rest, party);
      if e.party == party && ListedAtMostOnce(top5, party) {
        NotListed(rest, party);
      }
      if e.party != party {
        assert ListedAtMostOnce(top5, party) ==> ListedAtMostOnce(rest, party) by {
          if ListedAtMostOnce(top5, party) {
            forall i, j | 0 <= i < j < |rest| && rest[i].party == party ensures rest[j].party != party {
              assert top5[i + 1] == rest[i] && top5[j + 1] == rest[j];
            }
          }
        }
      }
    }
  }

  lemma NotListed(s: seq<Candidate>, party: string)
    requires forall i :: 0 <= i < |s| ==> s[i].party != party
    ensures PartyStatsSummary.CandidateVotes(s, party) == 0
  {
    var f := (x: Candidate) => if x.party == party then x.votesSecured as int else 0;
    SumByZero(s, f);
  }

  lemma {:induction false} SumByZero(s: seq<Candidate>, f: Candidate -> int)
    requires forall i :: 0 <= i < |s| ==> f(s[i]) == 0
    ensures SumBy(s, f) == 0
    decreases |s|
  {
    if s != [] {
      SumByZero(s[..|s| - 1], f);
    }
  }

  /** The party page's vote total never exceeds the state table's, which adds
      every entry of the party; the two agree when no seat lists the party
      twice. */
  lemma {:induction false} PageVotesAtMostTableVotes(cs: seq<Constituency>, party: string)
    ensures FirstMatchVotes(cs, party) <= PartyStatsSummary.AllVotes(cs, party)
    ensures (forall i :: 0 <= i < |cs| ==> ListedAtMostOnce(cs[i].top5, party)) ==>
            FirstMatchVotes(cs, party) == PartyStatsSummary.AllVotes(cs, party)
    decreases |cs|
  {
    if cs != [] {
      var init := cs[..|cs| - 1];
      PageVotesAtMostTableVotes(init, party);
      FirstVotesAtMostAll(cs[|cs| - 1].top5, party);
    }
  }

  /** A party listed twice in one seat: the page counts the first listing
      only, the state table counts both. */
  lemma DuplicateListingCountedOnce()
    ensures var c := Constituency(1, "Ichchapuram", "Srikakulam", 100, "80%", 0,
                                  CandidateDetails("A", "IND", 30), CandidateDetails("B", "IND", 20), 10,
                                  [Candidate(1, "A", "IND", 30, ""), Candidate(2, "B", "IND", 20, "")]);
            FirstMatchVotes([c], "IND") == 30 && PartyStatsSummary.AllVotes([c], "IND") == 50
  {
    var c := Constituency(1, "Ichchapuram", "Srikakulam", 100, "80%", 0,
                          CandidateDetails("A", "IND", 30), CandidateDetails("B", "IND", 20), 10,
                          [Candidate(1, "A", "IND", 30, ""), Candidate(2, "B", "IND", 20, "")]);
    OneSeatVotes(c, "IND");
    TwoListings(c.top5[0], c.top5[1], "IND");
    assert c.top5 == [c.top5[0], c.top5[1]];
  }

  /** Over a single seat both totals are that seat's own. */
  lemma OneSeatVotes(c: Constituency, p: string)
    ensures FirstMatchVotes([c], p) == FirstVotes(c.top5, p)
    ensures PartyStatsSummary.AllVotes([c], p) == PartyStatsSummary.CandidateVotes(c.top5, p)
  {
    SumBySingle(c, (c: Constituency) => FirstVotes(c.top5, p) as int);
    SumBySingle(c, (c: Constituency) => PartyStatsSummary.CandidateVotes(c.top5, p));
  }

  /** Two entries of the same party: the first match takes the first one's
      votes, the state table adds both. */
  lemma TwoListings(a: Candidate, b: Candidate, p: string)
    requires a.party == p && b.party == p
    ensures FirstVotes([a, b], p) == a.votesSecured
    ensures PartyStatsSummary.CandidateVotes([a, b], p) == a.votesSecured + b.votesSecured
  {
    PartyStatsSummary.CandidateVotesSnoc([], a, p);
    PartyStatsSummary.CandidateVotesSnoc([a], b, p);
    assert [a] + [b] == [a, b];
  }

  /** `wins`: the seats the party won, in record order. */
  function Wins(cs: seq<Constituency>, party: string): (r: seq<Constituency>)
    ensures IsSubsequence(r, cs)
    ensures forall i :: 0 <= i < |r| ==> r[i].winner.party == party
    ensures forall i :: 0 <= i < |cs| && cs[i].winner.party == party ==> cs[i] in r
  {
    FilterIsSubsequence(cs, (c: Constituency) => c.winner.party == party);
    Filter(cs, (c: Constituency) => c.winner.party == party)
  }

  /** The page's seat count agrees with the state table's. */
  lemma WinsMatchTable(cs: seq<Constituency>, party: string)
    ensures |Wins(cs, party)| == Current(PartyStatsSummary.Accumulate(cs), party, PartyStatsSummary.NoTally).seats
  {
    PartyStatsSummary.AccumulateCounts(cs, party);
  }

  /** `districtBreakdown` as specified: a count per district label, for the
      seats in `wins` taken in order. */
  function Breakdown(wins: seq<Constituency>): Dict<nat>
    decreases |wins|
  {
    if wins == [] then Empty() else Bump(Breakdown(wins[..|wins| - 1]), DistrictLabel(wins[|wins| - 1]))
  }

  /** The `reduce` that fills `districtBreakdown`. */
  method DistrictBreakdown(wins: seq<Constituency>) returns (acc: Dict<nat>)
    ensures acc == Breakdown(wins)
  {
    acc := Dict([], map[]);
    for i := 0 to |wins|
      invariant acc == Breakdown(wins[..i])
    {
      assert wins[..i + 1][..i] == wins[..i];
      var c := wins[i];
      var district := DistrictLabel(c);
      UpsertInTwoSteps(acc, district, 0, (n: nat) => n + 1);
      if district !in acc.vals {
        acc := Dict(acc.keys + [district], acc.vals[district := 0]);
      }
      acc := acc.(vals := acc.vals[district := acc.vals[district] + 1]);
    }
    assert wins[..|wins|] == wins;
  }

  /** The breakdown counts each seat once: its counts add up to the seats won,
      and each district's count is its number of wins. */
  lemma BreakdownCounts(wins: seq<Constituency>, k: string)
    ensures Valid(Breakdown(wins))
    ensures Total(Breakdown(wins)) == |wins|
    ensures Current(Breakdown(wins), k, 0) == |Filter(wins, (c: Constituency) => DistrictLabel(c) == k)|
    ensures k in Breakdown(wins).vals <==> exists i :: 0 <= i < |wins| && DistrictLabel(wins[i]) == k
  {
    BreakdownTotal(wins);
    BreakdownCount(wins, k);
    BreakdownKeys(wins, k);
  }

  lemma {:induction false} BreakdownTotal(wins: seq<Constituency>)
    ensures Valid(Breakdown(wins))
    ensures Total(Breakdown(wins)) == |wins|
    decreases |wins|
  {
    if wins != [] {
      BreakdownTotal(wins[..|wins| - 1]);
      TotalBump(Breakdown(wins[..|wins| - 1]), DistrictLabel(wins[|wins| - 1]));
    }
  }

  lemma {:induction false} BreakdownCount(wins: seq<Constituency>, k: string)
    ensures Current(Breakdown(wins), k, 0) == |Filter(wins, (c: Constituency) => DistrictLabel(c) == k)|
    decreases |wins|
  {
    if wins != [] {
      BreakdownCount(wins[..|wins| - 1], k);
    }
  }

  lemma {:induction false} BreakdownKeys(wins: seq<Constituency>, k: string)
    ensures k in Breakdown(wins).vals <==> exists i :: 0 <= i < |wins| && DistrictLabel(wins[i]) == k
    decreases |wins|
  {
    if wins != [] {
      var init, last := wins[..|wins| - 1], wins[|wins| - 1];
      BreakdownKeys(init, k);
      if k in Breakdown(init).vals {
        var i :| 0 <= i < |init| && DistrictLabel(init[i]) == k;
        assert wins[i] == init[i];
      } else if DistrictLabel(last) != k {
        forall i | 0 <= i < |wins| ensures DistrictLabel(wins[i]) != k {
          if i < |init| {
            assert wins[i] == init[i];
          }
        }
      }
    }
  }

  /** What the page shows. */
  datatype PartyPage =
    | PartyNotFound
    | PartyFound(
        party: string,
        wins: seq<Constituency>,
        totalVotes: nat,
        voteShare: Share,
        districtBreakdown: Dict<nat>)

  /** `partyName || ""`: the route parameter, already decoded. */
  function DecodedPartyName(partyName: Option<string>): string {
    match partyName
    case None => ""
    case Some(s) => s
  }

  /** The page for route parameter `partyName`: not found for a missing or
      empty name, otherwise the party's statistics. */
  function PartyDetailPage(partyName: Option<string>, cs: seq<Constituency>, polled: PolledVotes): (r: PartyPage)
    ensures r.PartyNotFound? <==> partyName.None? || partyName.value == ""
    ensures r.PartyFound? ==>
      && r.party == partyName.value
      && r.wins == Wins(cs, r.party)
      && r.totalVotes == FirstMatchVotes(cs, r.party)
      && r.voteShare == ShareOf(r.totalVotes, SumPolled(cs, polled))
      && r.districtBreakdown == Breakdown(r.wins)
  {
    var name := DecodedPartyName(partyName);
    if name == "" then PartyNotFound
    else
      var total := FirstMatchVotes(cs, name);
      assert total >= 0 by {
        SumByNonNegative(cs, (c: Constituency) => FirstVotes(c.top5, name) as int);
      }
      var wins := Wins(cs, name);
      PartyFound(name, wins, total, ShareOf(total, SumPolled(cs, polled)), Breakdown(wins))
  }

  /** On a found page the district counts add up to the seats won. */
  lemma PageBreakdownAddsUp(partyName: Option<string>, cs: seq<Constituency>, polled: PolledVotes)
    requires PartyDetailPage(partyName, cs, polled).PartyFound?
    ensures var r := PartyDetailPage(partyName, cs, polled);
            Valid(r.districtBreakdown) && Total(r.districtBreakdown) == |r.wins|
  {
    BreakdownCounts(PartyDetailPage(partyName, cs, polled).wins, "");
  }
}
