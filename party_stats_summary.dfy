/** The state-wide party table (`src/components/dashboard/PartyStatsSummary.tsx`):
    seats won and top-five votes per party, each party's share of the polled
    votes, the table's order and the eight bars of the chart. */
module PartyStatsSummary {
  import opened Seqs
  import opened Sorting
  import opened Dicts
  import opened ElectionTypes

  /** `{ seats, votes }` of one party. */
  datatype PartyTally = PartyTally(seats: nat, votes: nat)

  const NoTally: PartyTally := PartyTally(0, 0)

  function AddSeat(t: PartyTally): PartyTally {
    t.(seats := t.seats + 1)
  }

  function AddVotes(t: PartyTally, v: nat): PartyTally {
    t.(votes := t.votes + v)
  }

  /** One top-five entry adds its votes to its party. */
  function TallyCandidate(d: Dict<PartyTally>, e: Candidate): Dict<PartyTally> {
    Upsert(d, e.party, NoTally, t => AddVotes(t, e.votesSecured))
  }

  /** The winner's party gets one more seat. */
  function TallyWinner(d: Dict<PartyTally>, party: string): Dict<PartyTally> {
    Upsert(d, party, NoTally, AddSeat)
  }

  /** The inner `forEach`: each top-five entry adds its votes to its party. */
  function TallyCandidates(d: Dict<PartyTally>, top5: seq<Candidate>): Dict<PartyTally>
    decreases |top5|
  {
    if top5 == [] then d
    else TallyCandidate(TallyCandidates(d, top5[..|top5| - 1]), top5[|top5| - 1])
  }

  /** One constituency: a seat for the winner's party, then the votes of the
      top five. */
  function TallyRecord(d: Dict<PartyTally>, c: Constituency): Dict<PartyTally> {
    TallyCandidates(TallyWinner(d, c.winner.party), c.top5)
  }

  /** `TallyCandidate` is the source's two-step update of a candidate's party. */
  lemma CandidateInTwoSteps(d: Dict<PartyTally>, e: Candidate)
    ensures var x := if e.party in d.vals then d else Dict(d.keys + [e.party], d.vals[e.party := NoTally]);
            TallyCandidate(d, e) == Dict(x.keys, x.vals[e.party := AddVotes(x.vals[e.party], e.votesSecured)])
  {
    UpsertInTwoSteps(d, e.party, NoTally, t => AddVotes(t, e.votesSecured));
  }

  /** `TallyWinner` is the source's two-step update of the winner's party. */
  lemma WinnerInTwoSteps(d: Dict<PartyTally>, party: string)
    ensures var x := if party in d.vals then d else Dict(d.keys + [party], d.vals[party := NoTally]);
            TallyWinner(d, party) == Dict(x.keys, x.vals[party := AddSeat(x.vals[party])])
  {
    UpsertInTwoSteps(d, party, NoTally, AddSeat);
  }

  /** `partyData` after the outer `forEach` over `cs`. */
  function Accumulate(cs: seq<Constituency>): Dict<PartyTally>
    decreases |cs|
  {
    if cs == [] then Empty() else TallyRecord(Accumulate(cs[..|cs| - 1]), cs[|cs| - 1])
  }

  /** The nested loops that fill `partyData`. */
  method AccumulatePartyData(cs: seq<Constituency>) returns (partyData: Dict<PartyTally>)
    ensures partyData == Accumulate(cs)
  {
    partyData := Dict([], map[]);
    for i := 0 to |cs|
      invariant partyData == Accumulate(cs[..i])
    {
      ghost var before := partyData;
      var c := cs[i];
      var winnerParty := c.winner.party;
      WinnerInTwoSteps(partyData, winnerParty);
      if winnerParty !in partyData.vals {
        partyData := Dict(partyData.keys + [winnerParty], partyData.vals[winnerParty := NoTally]);
      }
      partyData := partyData.(vals := partyData.vals[winnerParty := AddSeat(partyData.vals[winnerParty])]);
      assert partyData == TallyWinner(before, winnerParty);
      partyData := AddTopFiveVotes(partyData, c.top5);
      assert cs[..i + 1][..i] == cs[..i];
    }
    assert cs[..|cs|] == cs;
  }

  /** The inner loop of `AccumulatePartyData`: the votes of one top five. */
  method AddTopFiveVotes(d: Dict<PartyTally>, top5: seq<Candidate>) returns (partyData: Dict<PartyTally>)
    ensures partyData == TallyCandidates(d, top5)
  {
    partyData := d;
    for j := 0 to |top5|
      invariant partyData == TallyCandidates(d, top5[..j])
    {
      var cand := top5[j];
      var p := cand.party;
      CandidateInTwoSteps(partyData, cand);
      if p !in partyData.vals {
        partyData := Dict(partyData.keys + [p], partyData.vals[p := NoTally]);
      }
      partyData := partyData.(vals := partyData.vals[p := AddVotes(partyData.vals[p], cand.votesSecured)]);
      assert top5[..j + 1][..j] == top5[..j];
    }
    assert top5[..|top5|] == top5;
  }

  // ------------------------------------------------------ reference counts

  /** The parties named in a top-five list. */
  function PartiesIn(top5: seq<Candidate>): set<string>
    decreases |top5|
  {
    if top5 == [] then {} else PartiesIn(top5[..|top5| - 1]) + {top5[|top5| - 1].party}
  }

  /** Every winner's party and every party in a top-five list. */
  function AllParties(cs: seq<Constituency>): set<string>
    decreases |cs|
  {
    if cs == [] then {}
    else AllParties(cs[..|cs| - 1]) + {cs[|cs| - 1].winner.party} + PartiesIn(cs[|cs| - 1].top5)
  }

  /** The votes a top-five list gives party `p`, summed over all its entries. */
  function CandidateVotes(top5: seq<Candidate>, p: string): int {
    SumBy(top5, (e: Candidate) => if e.party == p then e.votesSecured as int else 0)
  }

  /** The votes of party `p` over every top-five entry of every seat. */
  function AllVotes(cs: seq<Constituency>, p: string): int {
    SumBy(cs, (c: Constituency) => CandidateVotes(c.top5, p))
  }

  /** The seats won by party `p`. */
  function WinsOf(cs: seq<Constituency>, p: string): seq<Constituency> {
    Filter(cs, (c: Constituency) => c.winner.party == p)
  }

  function Seats(t: PartyTally): int {
    t.seats
  }

  lemma {:induction false} TallyCandidatesSpec(d: Dict<PartyTally>, top5: seq<Candidate>, p: string)
    ensures Valid(d) ==> Valid(TallyCandidates(d, top5))
    ensures p in TallyCandidates(d, top5).vals <==> p in d.vals || p in PartiesIn(top5)
    ensures Current(TallyCandidates(d, top5), p, NoTally).seats == Current(d, p, NoTally).seats
    ensures Current(TallyCandidates(d, top5), p, NoTally).votes == Current(d, p, NoTally).votes + CandidateVotes(top5, p)
    ensures Valid(d) ==> SumBy(Values(TallyCandidates(d, top5)), Seats) == SumBy(Values(d), Seats)
    decreases |top5|
  {
    if top5 != [] {
      var init, e := top5[..|top5| - 1], top5[|top5| - 1];
      TallyCandidatesSpec(d, init, p);
      TallyCandidateStep(TallyCandidates(d, init), e, p);
    }
  }

  /** What one top-five entry adds to the tally. */
  lemma TallyCandidateStep(d: Dict<PartyTally>, e: Candidate, p: string)
    ensures Valid(d) ==> Valid(TallyCandidate(d, e))
    ensures p in TallyCandidate(d, e).vals <==> p in d.vals || p == e.party
    ensures Current(TallyCandidate(d, e), p, NoTally).seats == Current(d, p, NoTally).seats
    ensures Current(TallyCandidate(d, e), p, NoTally).votes == Current(d, p, NoTally).votes + (if e.party == p then e.votesSecured else 0)
    ensures Valid(d) ==> SumBy(Values(TallyCandidate(d, e)), Seats) == SumBy(Values(d), Seats)
  {
    if Valid(d) {
      UpsertSum(d, e.party, NoTally, t => AddVotes(t, e.votesSecured), Seats);
    }
  }

  lemma TallyRecordSpec(d: Dict<PartyTally>, c: Constituency, p: string)
    ensures Valid(d) ==> Valid(TallyRecord(d, c))
    ensures p in TallyRecord(d, c).vals <==> p in d.vals || p == c.winner.party || p in PartiesIn(c.top5)
    ensures Current(TallyRecord(d, c), p, NoTally).seats == Current(d, p, NoTally).seats + (if c.winner.party == p then 1 else 0)
    ensures Current(TallyRecord(d, c), p, NoTally).votes == Current(d, p, NoTally).votes + CandidateVotes(c.top5, p)
    ensures Valid(d) ==> SumBy(Values(TallyRecord(d, c)), Seats) == SumBy(Values(d), Seats) + 1
  {
    var mid := Upsert(d, c.winner.party, NoTally, AddSeat);
    TallyCandidatesSpec(mid, c.top5, p);
    if Valid(d) {
      UpsertSum(d, c.winner.party, NoTally, AddSeat, Seats);
    }
  }

  /** `partyData` has one entry per party that won a seat or appears in a
      top-five list, and no other. */
  lemma {:induction false} AccumulateKeys(cs: seq<Constituency>)
    ensures Valid(Accumulate(cs))
    ensures Accumulate(cs).vals.Keys == AllParties(cs)
    decreases |cs|
  {
    if cs != [] {
      var init, c := cs[..|cs| - 1], cs[|cs| - 1];
      AccumulateKeys(init);
      TallyRecordSpec(Accumulate(init), c, "");
      forall p ensures p in Accumulate(cs).vals <==> p in AllParties(cs) {
        TallyRecordSpec(Accumulate(init), c, p);
      }
    }
  }

  /** A party's seats are its wins, and its votes are the sum over every
      top-five entry with its name, won seat or not. */
  lemma {:induction false} AccumulateCounts(cs: seq<Constituency>, p: string)
    ensures Current(Accumulate(cs), p, NoTally).seats == |WinsOf(cs, p)|
    ensures Current(Accumulate(cs), p, NoTally).votes == AllVotes(cs, p)
    decreases |cs|
  {
    if cs != [] {
      var init, c := cs[..|cs| - 1], cs[|cs| - 1];
      AccumulateCounts(init, p);
      TallyRecordSpec(Accumulate(init), c, p);
    }
  }

  /** Every seat is counted for exactly one party. */
  lemma {:induction false} AccumulateSeatsSum(cs: seq<Constituency>)
    ensures Valid(Accumulate(cs))
    ensures SumBy(Values(Accumulate(cs)), Seats) == |cs|
    decreases |cs|
  {
    AccumulateKeys(cs);
    if cs != [] {
      var init, c := cs[..|cs| - 1], cs[|cs| - 1];
      AccumulateSeatsSum(init);
      TallyRecordSpec(Accumulate(init), c, "");
    }
  }

  /** A party that lost a seat still collects that seat's votes: it can have
      votes and no seats. */
  lemma RunnerUpHasVotesWithoutSeats()
    ensures var c := Constituency(1, "Ichchapuram", "Srikakulam", 100, "80%", 0,
                                  CandidateDetails("A", "TDP", 60), CandidateDetails("B", "YSRCP", 20), 40,
                                  [Candidate(1, "A", "TDP", 60, ""), Candidate(2, "B", "YSRCP", 20, "")]);
            && "YSRCP" in Accumulate([c]).vals
            && Accumulate([c]).vals["YSRCP"] == PartyTally(0, 20)
  {
    var c := Constituency(1, "Ichchapuram", "Srikakulam", 100, "80%", 0,
                          CandidateDetails("A", "TDP", 60), CandidateDetails("B", "YSRCP", 20), 40,
                          [Candidate(1, "A", "TDP", 60, ""), Candidate(2, "B", "YSRCP", 20, "")]);
    OneRecordTally(c, "YSRCP");
    CandidateVotesSnoc([], c.top5[0], "YSRCP");
    CandidateVotesSnoc([c.top5[0]], c.top5[1], "YSRCP");
    assert [c.top5[0]] + [c.top5[1]] == c.top5;
    assert PartiesIn(c.top5) == PartiesIn([c.top5[0]]) + {"YSRCP"};
  }

  /** The tally of a single record, party by party. */
  lemma OneRecordTally(c: Constituency, p: string)
    ensures p in Accumulate([c]).vals <==> p == c.winner.party || p in PartiesIn(c.top5)
    ensures Current(Accumulate([c]), p, NoTally).seats == if c.winner.party == p then 1 else 0
    ensures Current(Accumulate([c]), p, NoTally).votes == CandidateVotes(c.top5, p)
  {
    assert [c][..0] == [];
    AccumulateCounts([c], p);
    AccumulateKeys([c]);
    SumBySingle(c, (c: Constituency) => CandidateVotes(c.top5, p));
    assert WinsOf([c], p) == if c.winner.party == p then [c] else [];
  }

  lemma CandidateVotesSnoc(s: seq<Candidate>, e: Candidate, p: string)
    ensures CandidateVotes(s + [e], p) == CandidateVotes(s, p) + (if e.party == p then e.votesSecured else 0)
  {
    assert (s + [e])[..|s|] == s;
  }

  // ----------------------------------------------------------- the table

  /** One row of the table and one bar of the chart. */
  datatype PartyStat = PartyStat(party: string, seats: nat, votes: nat, voteShare: Share)

  /** `Object.entries(partyData).map(...)`. */
  function ToStats(entries: seq<(string, PartyTally)>, totalPolled: int): (r: seq<PartyStat>)
    ensures |r| == |entries|
    ensures forall i :: 0 <= i < |r| ==>
      r[i] == PartyStat(entries[i].0, entries[i].1.seats, entries[i].1.votes, ShareOf(entries[i].1.votes, totalPolled))
  {
    seq(|entries|, i requires 0 <= i < |entries| =>
      PartyStat(entries[i].0, entries[i].1.seats, entries[i].1.votes, ShareOf(entries[i].1.votes, totalPolled)))
  }

  /** The table's comparator: more seats first, then more votes. */
  function CompareStats(a: PartyStat, b: PartyStat): int {
    if b.seats != a.seats then b.seats - a.seats else b.votes - a.votes
  }

  predicate StatLe(a: PartyStat, b: PartyStat) {
    CompareStats(a, b) <= 0
  }

  lemma StatLePreorder()
    ensures TotalPreorder(StatLe)
  {
  }

  /** `stats`: one row per party, most seats first and, among equal seats,
      most votes first, each with its zero-guarded share of the polled votes. */
  function PartyStats(cs: seq<Constituency>, polled: PolledVotes): (r: seq<PartyStat>)
    ensures Valid(Accumulate(cs))
    ensures multiset(r) == multiset(ToStats(Entries(Accumulate(cs)), SumPolled(cs, polled)))
    ensures forall i, j :: 0 <= i < j < |r| ==>
      r[i].seats > r[j].seats || (r[i].seats == r[j].seats && r[i].votes >= r[j].votes)
  {
    AccumulateKeys(cs);
    StatLePreorder();
    SortBy(ToStats(Entries(Accumulate(cs)), SumPolled(cs, polled)), StatLe)
  }

  /** The rows built from a dictionary, in any order, are its entries. */
  lemma RowsOfEntries(d: Dict<PartyTally>, total: int, r: seq<PartyStat>)
    requires Valid(d)
    requires multiset(r) == multiset(ToStats(Entries(d), total))
    ensures |r| == |d.keys|
    ensures forall i :: 0 <= i < |r| ==>
      && r[i].party in d.vals
      && r[i].seats == d.vals[r[i].party].seats
      && r[i].votes == d.vals[r[i].party].votes
      && r[i].voteShare == ShareOf(r[i].votes, total)
  {
    var t := ToStats(Entries(d), total);
    assert |multiset(r)| == |multiset(t)|;
    PermutationMembers(t, r);
    forall i | 0 <= i < |r|
      ensures && r[i].party in d.vals
              && r[i].seats == d.vals[r[i].party].seats
              && r[i].votes == d.vals[r[i].party].votes
              && r[i].voteShare == ShareOf(r[i].votes, total)
    {
      var m := IndexOf(t, r[i]);
    }
  }

  /** Rows built from a dictionary, in any order, give each key exactly one
      row. */
  lemma RowsOnePerKey(d: Dict<PartyTally>, total: int, r: seq<PartyStat>)
    requires Valid(d)
    requires multiset(r) == multiset(ToStats(Entries(d), total))
    ensures forall k :: k in d.vals ==> exists i :: 0 <= i < |r| && r[i].party == k
    ensures forall i, j :: 0 <= i < j < |r| ==> r[i].party != r[j].party
  {
    var t := ToStats(Entries(d), total);
    PermutationMembers(t, r);
    forall k | k in d.vals ensures exists i :: 0 <= i < |r| && r[i].party == k {
      var m := IndexOf(d.keys, k);
      assert t[m].party == k;
      var i := IndexOf(r, t[m]);
    }
    forall i, j | 0 <= i < j < |t| ensures t[i] != t[j] {
      assert t[i].party == d.keys[i] && t[j].party == d.keys[j];
    }
    DistinctPermutation(t, r);
    RowsOfEntries(d, total, r);
    forall i, j | 0 <= i < j < |r| ensures r[i].party != r[j].party {
      assert r[i] == StatOf(d, total, r[i].party);
      assert r[j] == StatOf(d, total, r[j].party);
    }
  }

  /** The row `partyData` gives party `k`. */
  function StatOf(d: Dict<PartyTally>, total: int, k: string): PartyStat
    requires k in d.vals
  {
    PartyStat(k, d.vals[k].seats, d.vals[k].votes, ShareOf(d.vals[k].votes, total))
  }

  /** Each row describes one party exactly as `partyData` holds it: its wins,
      its votes over all top-five entries and its guarded share; there is one
      row per party, and no party has two. */
  lemma PartyStatsRows(cs: seq<Constituency>, polled: PolledVotes)
    ensures var r := PartyStats(cs, polled);
            forall i :: 0 <= i < |r| ==>
              && r[i].party in AllParties(cs)
              && r[i].seats == |WinsOf(cs, r[i].party)|
              && r[i].votes == AllVotes(cs, r[i].party)
              && r[i].voteShare == ShareOf(r[i].votes, SumPolled(cs, polled))
    ensures |PartyStats(cs, polled)| == |AllParties(cs)|
    ensures var r := PartyStats(cs, polled);
            forall p :: p in AllParties(cs) ==> exists i :: 0 <= i < |r| && r[i].party == p
    ensures var r := PartyStats(cs, polled);
            forall i, j :: 0 <= i < j < |r| ==> r[i].party != r[j].party
  {
    AccumulateKeys(cs);
    var d := Accumulate(cs);
    var r := PartyStats(cs, polled);
    RowsOfEntries(d, SumPolled(cs, polled), r);
    RowsOnePerKey(d, SumPolled(cs, polled), r);
    forall i | 0 <= i < |r|
      ensures && r[i].seats == |WinsOf(cs, r[i].party)|
              && r[i].votes == AllVotes(cs, r[i].party)
    {
      AccumulateCounts(cs, r[i].party);
    }
    PartyStatsCount(cs, polled);
  }

  lemma PartyStatsCount(cs: seq<Constituency>, polled: PolledVotes)
    ensures |PartyStats(cs, polled)| == |AllParties(cs)|
  {
    AccumulateKeys(cs);
    var d := Accumulate(cs);
    RowsOfEntries(d, SumPolled(cs, polled), PartyStats(cs, polled));
    KeysCardinality(d.keys);
    assert (set k | k in d.keys) == d.vals.Keys;
  }

  lemma {:induction false} KeysCardinality(keys: seq<string>)
    requires Distinct(keys)
    ensures |set k | k in keys| == |keys|
    decreases |keys|
  {
    if keys != [] {
      var init, x := keys[..|keys| - 1], keys[|keys| - 1];
      DistinctSnoc(keys);
      KeysCardinality(init);
      assert keys == init + [x];
      SetOfSnoc(init, x);
    }
  }

  /** Dropping the last key keeps the keys distinct, and that key is new. */
  lemma DistinctSnoc(keys: seq<string>)
    requires Distinct(keys) && keys != []
    ensures Distinct(keys[..|keys| - 1])
    ensures keys[|keys| - 1] !in keys[..|keys| - 1]
  {
    var init := keys[..|keys| - 1];
    forall i | 0 <= i < |init| ensures init[i] != keys[|keys| - 1] {
      assert init[i] == keys[i];
    }
  }

  lemma SetOfSnoc(init: seq<string>, x: string)
    ensures (set k | k in init + [x]) == (set k | k in init) + {x}
  {
  }

  /** The chart's bars: the first eight rows. */
  function ChartRows(stats: seq<PartyStat>): (r: seq<PartyStat>)
    ensures |r| == if |stats| < 8 then |stats| else 8
    ensures r == stats[..|r|]
  {
    Take(stats, 8)
  }

  /** No party left off the chart has more seats than a party on it. */
  lemma ChartShowsLeaders(cs: seq<Constituency>, polled: PolledVotes)
    ensures var r := PartyStats(cs, polled);
            forall i, j :: 0 <= i < |ChartRows(r)| <= j < |r| ==> r[j].seats <= ChartRows(r)[i].seats
  {
  }
}
