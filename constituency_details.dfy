/** A constituency's page (`src/pages/ConstituencyDetails.tsx`): the AC number
    taken from the route, the record it selects, the top-five vote total and
    the candidates table. */
module ConstituencyDetails {
  import opened Seqs
  import opened Text
  import opened ElectionTypes
  import CandidatesTable

  /** `acNo ? parseInt(acNo) : 1`: a missing or empty parameter selects AC 1;
      `None` stands for `NaN`. */
  function SelectedAc(acNo: Option<string>): (r: Option<int>)
    ensures acNo.None? || acNo.value == "" ==> r == Some(1)
    ensures acNo.Some? && acNo.value != "" ==> r == ParseInt(acNo.value)
  {
    match acNo
    case None => Some(1)
    case Some(s) => if s == "" then Some(1) else ParseInt(s)
  }

  /** The page's own links, `/constituency/<n>`, select AC `n`. */
  lemma SelectedAcOfLink(n: int)
    ensures SelectedAc(Some(IntToString(n))) == Some(n)
  {
    ParseIntOfIntToString(n);
  }

  /** Position `i` holds the first record with AC number `ac`. */
  predicate FirstWithAc(cs: seq<Constituency>, ac: int, i: int) {
    0 <= i < |cs| && cs[i].acNo == ac && forall j :: 0 <= j < i ==> cs[j].acNo != ac
  }

  /** `constituencies.find(c => c.AC_No === selectedAC)`; `NaN` equals nothing. */
  function FindConstituency(cs: seq<Constituency>, ac: Option<int>): (r: Option<Constituency>)
    ensures r.None? <==> ac.None? || forall i :: 0 <= i < |cs| ==> cs[i].acNo != ac.value
    ensures r.Some? ==> ac.Some? && exists i :: FirstWithAc(cs, ac.value, i) && cs[i] == r.value
    decreases |cs|
  {
    if ac.None? || cs == [] then None
    else if cs[0].acNo == ac.value then
      assert FirstWithAc(cs, ac.value, 0);
      Some(cs[0])
    else
      var r := FindConstituency(cs[1..], ac);
      if r.Some? then
        var i :| FirstWithAc(cs[1..], ac.value, i) && cs[1..][i] == r.value;
        assert FirstWithAc(cs, ac.value, i + 1);
        r
      else r
  }

  /** `totalVotesCast`: the votes of the top five added up. It is at least
      each listed candidate's votes, the winner's entry included. */
  function TotalVotesCast(c: Constituency): (t: int)
    ensures t >= 0
    ensures forall i :: 0 <= i < |c.top5| ==> t >= c.top5[i].votesSecured
  {
    CandidatesTable.Top5TotalVotes(c.top5)
  }

  /** What the page shows. `lead` is the record's stored margin. */
  datatype DetailsPage =
    | ConstituencyNotFound
    | Details(selected: Constituency, totalVotesCast: int, lead: nat, table: CandidatesTable.Table)

  /** The page as written: the table is rendered without `totalVotes`. */
  function ConstituencyPage(acNo: Option<string>, cs: seq<Constituency>): (p: DetailsPage)
    ensures p.ConstituencyNotFound? <==> FindConstituency(cs, SelectedAc(acNo)).None?
    ensures p.Details? ==>
      && p.selected == FindConstituency(cs, SelectedAc(acNo)).value
      && p.totalVotesCast == TotalVotesCast(p.selected)
      && p.lead == p.selected.winningMargin
      && p.table == CandidatesTable.RenderTable(p.selected.top5, None)
  {
    match FindConstituency(cs, SelectedAc(acNo))
    case None => ConstituencyNotFound
    case Some(c) => Details(c, TotalVotesCast(c), c.winningMargin, CandidatesTable.RenderTable(c.top5, None))
  }

  /** The lead shown is the stored margin even when it disagrees with the
      winner's and runner-up's votes. */
  lemma LeadIsStoredMargin()
    ensures var c := Constituency(1, "Ichchapuram", "Srikakulam", 100, "80%", 0,
                                  CandidateDetails("A", "TDP", 60), CandidateDetails("B", "YSRCP", 20), 7, []);
            var p := ConstituencyPage(None, [c]);
            p.Details? && p.lead == 7 && p.lead != c.winner.votesSecured - c.runnerUp.votesSecured
  {
  }

  /** As written, every share in the table shows `0.00`, whatever the votes. */
  lemma TableSharesAlwaysZero(acNo: Option<string>, cs: seq<Constituency>)
    requires ConstituencyPage(acNo, cs).Details?
    ensures var t := ConstituencyPage(acNo, cs).table;
            t.footerShare == ZeroShare && forall i :: 0 <= i < |t.rows| ==> t.rows[i].share == ZeroShare
  {
    var p := ConstituencyPage(acNo, cs);
    CandidatesTable.SharesGuarded(p.selected.top5, None);
  }

  /** A seat with votes whose table still shows `0.00` for its winner. */
  lemma ZeroShareWithVotes()
    ensures var c := Constituency(1, "Ichchapuram", "Srikakulam", 100, "80%", 0,
                                  CandidateDetails("A", "TDP", 60), CandidateDetails("B", "YSRCP", 20), 40,
                                  [Candidate(1, "A", "TDP", 60, "")]);
            var p := ConstituencyPage(None, [c]);
            p.Details? && p.totalVotesCast > 0 && p.table.rows[0].share == ZeroShare
  {
  }

  /** The page with the table given the top-five total `totalVotesCast` as its
      denominator, the one the page already gives its candidate cards; the
      footer then shows the whole, 100%. */
  function ConstituencyPageWithShares(acNo: Option<string>, cs: seq<Constituency>): (p: DetailsPage)
    ensures p.ConstituencyNotFound? <==> FindConstituency(cs, SelectedAc(acNo)).None?
    ensures p.Details? ==>
      && p.selected == FindConstituency(cs, SelectedAc(acNo)).value
      && p.totalVotesCast == TotalVotesCast(p.selected)
      && p.lead == p.selected.winningMargin
      && p.table == CandidatesTable.RenderTable(p.selected.top5, Some(p.totalVotesCast))
  {
    match FindConstituency(cs, SelectedAc(acNo))
    case None => ConstituencyNotFound
    case Some(c) => Details(c, TotalVotesCast(c), c.winningMargin, CandidatesTable.RenderTable(c.top5, Some(TotalVotesCast(c))))
  }

  /** With the denominator passed, a seat with votes shows each candidate's
      share of the top five and a footer of the whole; a seat without votes
      still shows `0.00` and divides by nothing. */
  lemma SharesOfTopFive(acNo: Option<string>, cs: seq<Constituency>)
    requires ConstituencyPageWithShares(acNo, cs).Details?
    ensures var p := ConstituencyPageWithShares(acNo, cs);
            p.totalVotesCast > 0 ==>
              && p.table.footerShare == Ratio(p.totalVotesCast, p.totalVotesCast)
              && forall i :: 0 <= i < |p.table.rows| ==> p.table.rows[i].share == Ratio(p.selected.top5[i].votesSecured, p.totalVotesCast)
    ensures var p := ConstituencyPageWithShares(acNo, cs);
            p.totalVotesCast == 0 ==>
              p.table.footerShare == ZeroShare && forall i :: 0 <= i < |p.table.rows| ==> p.table.rows[i].share == ZeroShare
  {
    var p := ConstituencyPageWithShares(acNo, cs);
    CandidatesTable.SharesGuarded(p.selected.top5, Some(p.totalVotesCast));
  }
}
