/** The seats-by-party summary (`src/components/dashboard/PartySeatsSummary.tsx`):
    the rows sorted by seats, their total, and the four stat cards. */
module PartySeatsSummary {
  import opened Seqs
  import opened Sorting

  datatype PartySeats = PartySeats(party: string, seats: int)

  predicate SeatsLe(a: PartySeats, b: PartySeats) {
    b.seats - a.seats <= 0
  }

  /** `[...partySeats].sort((a, b) => b.seats - a.seats)`: the same rows, most
      seats first. The copy leaves the caller's rows as they were, which a
      value here always does. */
  function SortedData(partySeats: seq<PartySeats>): (r: seq<PartySeats>)
    ensures multiset(r) == multiset(partySeats)
    ensures forall i, j :: 0 <= i < j < |r| ==> r[i].seats >= r[j].seats
  {
    assert TotalPreorder(SeatsLe);
    SortBy(partySeats, SeatsLe)
  }

  function Seats(p: PartySeats): int {
    p.seats
  }

  /** `totalSeats`: the seats of the sorted rows added up. */
  function TotalSeats(partySeats: seq<PartySeats>): int {
    SumBy(SortedData(partySeats), Seats)
  }

  /** Sorting does not change the total: it is the input rows' sum. */
  lemma TotalSeatsOfInput(partySeats: seq<PartySeats>)
    ensures TotalSeats(partySeats) == SumBy(partySeats, Seats)
  {
    SumByPermutation(SortedData(partySeats), partySeats, Seats);
  }

  /** The stat cards: the first four sorted rows. */
  function StatCards(sortedData: seq<PartySeats>): (r: seq<PartySeats>)
    ensures |r| == if |sortedData| < 4 then |sortedData| else 4
    ensures r == sortedData[..|r|]
  {
    Take(sortedData, 4)
  }

  /** No row left without a card has more seats than a row with one. */
  lemma StatCardsAreLeaders(partySeats: seq<PartySeats>)
    ensures var s := SortedData(partySeats);
            forall i, j :: 0 <= i < |StatCards(s)| <= j < |s| ==> s[j].seats <= StatCards(s)[i].seats
  {
  }
}
