/** The district analysis page (`src/pages/DistrictPerformance.tsx`): the
    district selector's options, the per-district roll-up behind the overview
    cards, the cards' search filter and order, and the selected district's
    constituency list. */
module DistrictPerformance {
  import opened Seqs
  import opened Sorting
  import opened Text
  import opened Dicts
  import opened ElectionTypes

  // ----------------------------------------------------- district selector

  predicate StrLe(a: string, b: string) {
    a == b || StrLt(a, b)
  }

  lemma StrLePreorder()
    ensures TotalPreorder(StrLe)
  {
    forall a, b ensures StrLe(a, b) || StrLe(b, a) {
      StrLtTrichotomy(a, b);
    }
    forall a, b, c | StrLe(a, b) && StrLe(b, c) ensures StrLe(a, c) {
      if a != b && b != c {
        StrLtTransitive(a, b, c);
      }
    }
  }

  function Labels(cs: seq<Constituency>): (r: seq<string>)
    ensures |r| == |cs|
    ensures forall i :: 0 <= i < |cs| ==> r[i] == DistrictLabel(cs[i])
  {
    seq(|cs|, i requires 0 <= i < |cs| => DistrictLabel(cs[i]))
  }

  /** `uniqueDistricts`: every district label once, in ascending order. */
  function UniqueDistricts(cs: seq<Constituency>): (r: seq<string>)
    ensures forall i :: 0 <= i < |cs| ==> DistrictLabel(cs[i]) in r
    ensures forall i :: 0 <= i < |r| ==> r[i] in Labels(cs) && r[i] != ""
    ensures forall i, j :: 0 <= i < j < |r| ==> StrLt(r[i], r[j])
  {
    var d := Dedup(Labels(cs));
    DedupSpec(Labels(cs));
    StrLePreorder();
    var r := SortBy(d, StrLe);
    DistinctPermutation(d, r);
    PermutationMembers(d, r);
    SortedDistinctIncreasing(r);
    r
  }

  lemma SortedDistinctIncreasing(r: seq<string>)
    requires Sorted(r, StrLe) && Distinct(r)
    ensures forall i, j :: 0 <= i < j < |r| ==> StrLt(r[i], r[j])
  {
  }

  // -------------------------------------------------------------- roll-up

  /** One overview card. */
  datatype DistrictStats = DistrictStats(name: string, totalSeats: nat, partyWins: Dict<nat>, totalVotes: nat)

  function NewStats(name: string): DistrictStats {
    DistrictStats(name, 0, Empty(), 0)
  }

  /** One constituency's contribution to its district's card. */
  function Tally(s: DistrictStats, c: Constituency, polled: PolledVotes): DistrictStats {
    s.(totalSeats := s.totalSeats + 1,
       partyWins := Bump(s.partyWins, c.winner.party),
       totalVotes := s.totalVotes + polled(c))
  }

  function AddRecord(stats: Dict<DistrictStats>, c: Constituency, polled: PolledVotes): Dict<DistrictStats> {
    var name := DistrictLabel(c);
    Upsert(stats, name, NewStats(name), s => Tally(s, c, polled))
  }

  /** The roll-up of `cs` taken in order, one record at a time. */
  function Rollup(cs: seq<Constituency>, polled: PolledVotes): Dict<DistrictStats>
    decreases |cs|
  {
    if cs == [] then Empty() else AddRecord(Rollup(cs[..|cs| - 1], polled), cs[|cs| - 1], polled)
  }

  /** The `forEach` that builds `stats`: create a district's card on its first
      record, then count the seat, the winner's party and the polled votes. */
  method ComputeDistrictStats(cs: seq<Constituency>, polled: PolledVotes) returns (stats: Dict<DistrictStats>)
    ensures stats == Rollup(cs, polled)
  {
    stats := Dict([], map[]);
    for i := 0 to |cs|
      invariant stats == Rollup(cs[..i], polled)
    {
      stats := CountRecord(stats, cs[i], polled);
      assert cs[..i + 1][..i] == cs[..i];
    }
    assert cs[..|cs|] == cs;
  }

  /** The body of the `forEach` for one record `c`. */
  method CountRecord(stats: Dict<DistrictStats>, c: Constituency, polled: PolledVotes) returns (r: Dict<DistrictStats>)
    ensures r == AddRecord(stats, c, polled)
  {
    var districtName := DistrictLabel(c);
    AddRecordUnfold(stats, c, polled);
    r := stats;
    if districtName !in r.vals {
      r := Dict(r.keys + [districtName], r.vals[districtName := NewStats(districtName)]);
    }
    var entry := r.vals[districtName];
    assert entry == Current(stats, districtName, NewStats(districtName));
    entry := entry.(totalSeats := entry.totalSeats + 1);
    var winnerParty := c.winner.party;
    entry := entry.(partyWins := Bump(entry.partyWins, winnerParty));
    entry := entry.(totalVotes := entry.totalVotes + polled(c));
    ghost var inserted := r.vals;
    r := r.(vals := r.vals[districtName := entry]);
    MapUpdateTwice(stats.vals, inserted, districtName, entry);
  }

  /** Overwriting a key of a map that differs from `m` at most at that key. */
  lemma MapUpdateTwice<K, V>(m: map<K, V>, m': map<K, V>, k: K, v: V)
    requires m'.Keys <= m.Keys + {k}
    requires forall j :: j in m && j != k ==> j in m' && m'[j] == m[j]
    ensures m'[k := v] == m[k := v]
  {
  }

  lemma AddRecordUnfold(stats: Dict<DistrictStats>, c: Constituency, polled: PolledVotes)
    ensures var name := DistrictLabel(c);
            var r := AddRecord(stats, c, polled);
            && r.keys == (if name in stats.vals then stats.keys else stats.keys + [name])
            && r.vals == stats.vals[name := Tally(Current(stats, name, NewStats(name)), c, polled)]
  {
  }

  /** The records of district `k`. */
  function InDistrict(cs: seq<Constituency>, k: string): seq<Constituency> {
    Filter(cs, c => DistrictLabel(c) == k)
  }

  /** The records of district `k` won by party `p`. */
  function WinsIn(cs: seq<Constituency>, k: string, p: string): seq<Constituency> {
    Filter(cs, c => DistrictLabel(c) == k && c.winner.party == p)
  }

  /** A card is well formed: it is filed under its own name, counts at least
      one seat, and its per-party wins add up to its seat count. */
  ghost predicate CardWellFormed(k: string, s: DistrictStats) {
    && s.name == k
    && s.totalSeats >= 1
    && Valid(s.partyWins)
    && Total(s.partyWins) == s.totalSeats
  }

  ghost predicate CardsWellFormed(stats: Dict<DistrictStats>) {
    && Valid(stats)
    && forall k :: k in stats.vals ==> CardWellFormed(k, stats.vals[k])
  }

  /** There is a card for exactly the districts that have records; every card
      is well formed, so the party wins of a district add up to its seats. */
  lemma {:induction false} RollupWellFormed(cs: seq<Constituency>, polled: PolledVotes)
    ensures CardsWellFormed(Rollup(cs, polled))
    ensures forall k :: k in Rollup(cs, polled).vals <==> k in Labels(cs)
    decreases |cs|
  {
    if cs != [] {
      var init, c := cs[..|cs| - 1], cs[|cs| - 1];
      RollupWellFormed(init, polled);
      AddRecordWellFormed(Rollup(init, polled), c, polled);
      LabelsSnoc(cs);
    }
  }

  lemma LabelsSnoc(cs: seq<Constituency>)
    requires cs != []
    ensures forall k :: k in Labels(cs) <==> k in Labels(cs[..|cs| - 1]) || k == DistrictLabel(cs[|cs| - 1])
  {
    assert Labels(cs) == Labels(cs[..|cs| - 1]) + [DistrictLabel(cs[|cs| - 1])];
  }

  /** One record keeps the cards well formed and adds its district's card. */
  lemma AddRecordWellFormed(stats: Dict<DistrictStats>, c: Constituency, polled: PolledVotes)
    requires CardsWellFormed(stats)
    ensures CardsWellFormed(AddRecord(stats, c, polled))
    ensures forall k :: k in AddRecord(stats, c, polled).vals <==> k in stats.vals || k == DistrictLabel(c)
  {
    var name := DistrictLabel(c);
    var s := Current(stats, name, NewStats(name));
    var r := AddRecord(stats, c, polled);
    AddRecordUnfold(stats, c, polled);
    TallyWellFormed(name, s, c, polled);
    forall k | k in r.vals
      ensures CardWellFormed(k, r.vals[k])
    {
      if k != name {
        assert r.vals[k] == stats.vals[k];
      }
    }
  }

  /** Counting a record on a new or well-formed card gives a well-formed card. */
  lemma TallyWellFormed(name: string, s: DistrictStats, c: Constituency, polled: PolledVotes)
    requires s == NewStats(name) || CardWellFormed(name, s)
    ensures CardWellFormed(name, Tally(s, c, polled))
  {
    TotalBump(s.partyWins, c.winner.party);
  }

  /** A district's card counts exactly its records, and its vote total is the
      sum of their polled votes; a district without records has no card. */
  lemma {:induction false} RollupCountsDistrict(cs: seq<Constituency>, polled: PolledVotes, k: string)
    ensures var stats := Rollup(cs, polled);
            |InDistrict(cs, k)| == (if k in stats.vals then stats.vals[k].totalSeats else 0)
    ensures var stats := Rollup(cs, polled);
            SumPolled(InDistrict(cs, k), polled) == (if k in stats.vals then stats.vals[k].totalVotes else 0)
    decreases |cs|
  {
    if cs != [] {
      var init, c := cs[..|cs| - 1], cs[|cs| - 1];
      RollupCountsDistrict(init, polled, k);
      var tail := if DistrictLabel(c) == k then [c] else [];
      assert InDistrict(cs, k) == InDistrict(init, k) + tail;
      SumByAppend(InDistrict(init, k), tail, (c: Constituency) => polled(c) as int);
      if DistrictLabel(c) == k {
        assert SumPolled([c], polled) == polled(c) by { assert [c][..0] == []; }
      }
      AddRecordUnfold(Rollup(init, polled), c, polled);
    }
  }

  /** A card's per-party tally counts exactly the district's records won by
      that party. */
  lemma {:induction false} RollupCountsWins(cs: seq<Constituency>, polled: PolledVotes, k: string, p: string)
    ensures var stats := Rollup(cs, polled);
            |WinsIn(cs, k, p)| == (if k in stats.vals && p in stats.vals[k].partyWins.vals then stats.vals[k].partyWins.vals[p] else 0)
    decreases |cs|
  {
    if cs != [] {
      var init, c := cs[..|cs| - 1], cs[|cs| - 1];
      RollupCountsWins(init, polled, k, p);
      AddRecordUnfold(Rollup(init, polled), c, polled);
    }
  }

  function CardSeats(s: DistrictStats): int {
    s.totalSeats
  }

  /** Each record adds a seat to exactly one card, so over all cards the seats
      add up to the number of records. */
  lemma {:induction false} RollupSeatsSum(cs: seq<Constituency>, polled: PolledVotes)
    ensures Valid(Rollup(cs, polled))
    ensures SumBy(Values(Rollup(cs, polled)), CardSeats) == |cs|
    decreases |cs|
  {
    RollupWellFormed(cs, polled);
    if cs != [] {
      var init, c := cs[..|cs| - 1], cs[|cs| - 1];
      RollupSeatsSum(init, polled);
      var name := DistrictLabel(c);
      UpsertSum(Rollup(init, polled), name, NewStats(name), s => Tally(s, c, polled), CardSeats);
    }
  }

  // ------------------------------------------------------ overview cards

  /** The search filter on the cards: all of them for a blank query, else those
      whose lower-cased name contains the lower-cased (untrimmed) query. */
  function FilterDistricts(ds: seq<DistrictStats>, query: string): (r: seq<DistrictStats>)
    ensures IsBlank(query) ==> r == ds
    ensures IsSubsequence(r, ds)
    ensures !IsBlank(query) ==> forall i :: 0 <= i < |r| ==> Includes(Lower(r[i].name), Lower(query))
    ensures forall i :: 0 <= i < |ds| && Includes(Lower(ds[i].name), Lower(query)) ==> ds[i] in r
    ensures Distinct(ds) ==> Distinct(r)
  {
    if IsBlank(query) then
      assert IsSubsequence(Filter(ds, d => true), ds) by { FilterIsSubsequence(ds, d => true); }
      FilterAll(ds, d => true);
      ds
    else
      FilterIsSubsequence(ds, (d: DistrictStats) => Includes(Lower(d.name), Lower(query)));
      if Distinct(ds) then
        FilterDistinct(ds, (d: DistrictStats) => Includes(Lower(d.name), Lower(query)));
        Filter(ds, (d: DistrictStats) => Includes(Lower(d.name), Lower(query)))
      else
        Filter(ds, (d: DistrictStats) => Includes(Lower(d.name), Lower(query)))
  }

  /** The districts in their geographic order, north to south. */
  const DistrictOrder: seq<string> := [
    "Srikakulam", "Vizianagaram", "Visakhapatnam", "East Godavari",
    "West Godavari", "Krishna", "Guntur", "Prakasam",
    "Nellore", "Y.S.R. Kadapa", "Kurnool", "Anantapur", "Chittoor"]

  /** `order.indexOf(name)`: the position in the list, or -1. */
  function OrderIndex(name: string): (i: int)
    ensures -1 <= i < |DistrictOrder|
    ensures i >= 0 <==> name in DistrictOrder
    ensures i >= 0 ==> DistrictOrder[i] == name
  {
    if name in DistrictOrder then IndexOf(DistrictOrder, name) else -1
  }

  /** The cards' comparator. */
  function CompareDistricts(a: DistrictStats, b: DistrictStats): int {
    var ia, ib := OrderIndex(a.name), OrderIndex(b.name);
    if ia != -1 && ib != -1 then ia - ib
    else if ia != -1 then -1
    else if ib != -1 then 1
    else Compare(a.name, b.name)
  }

  predicate DistrictLe(a: DistrictStats, b: DistrictStats) {
    CompareDistricts(a, b) <= 0
  }

  /** The order the cards are meant to appear in: listed districts first, in
      list order, then the others by name. */
  predicate NamesInOrder(a: string, b: string) {
    if a in DistrictOrder then b in DistrictOrder ==> IndexOf(DistrictOrder, a) <= IndexOf(DistrictOrder, b)
    else b !in DistrictOrder && (a == b || StrLt(a, b))
  }

  /** The comparator is consistent, and it puts cards in `NamesInOrder`. */
  lemma DistrictLePreorder()
    ensures TotalPreorder(DistrictLe)
    ensures forall a, b :: DistrictLe(a, b) <==> NamesInOrder(a.name, b.name)
  {
    forall a, b ensures (DistrictLe(a, b) <==> NamesInOrder(a.name, b.name)) && (DistrictLe(a, b) || DistrictLe(b, a)) {
      DistrictLeMeaning(a, b);
    }
    forall a, b, c | DistrictLe(a, b) && DistrictLe(b, c) ensures DistrictLe(a, c) {
      DistrictLeMeaning(a, b);
      DistrictLeMeaning(b, c);
      DistrictLeMeaning(a, c);
      NamesInOrderTransitive(a.name, b.name, c.name);
    }
  }

  lemma DistrictLeMeaning(a: DistrictStats, b: DistrictStats)
    ensures DistrictLe(a, b) <==> NamesInOrder(a.name, b.name)
    ensures DistrictLe(a, b) || DistrictLe(b, a)
  {
    var ia, ib := OrderIndex(a.name), OrderIndex(b.name);
    if ia == -1 && ib == -1 {
      StrLtTrichotomy(a.name, b.name);
      assert DistrictLe(a, b) <==> (a.name == b.name || StrLt(a.name, b.name));
    }
  }

  lemma NamesInOrderTransitive(a: string, b: string, c: string)
    requires NamesInOrder(a, b) && NamesInOrder(b, c)
    ensures NamesInOrder(a, c)
  {
    if a !in DistrictOrder && a != b && b != c {
      StrLtTransitive(a, b, c);
    }
  }

  /** `districtStats`: the filtered cards sorted by the comparator. */
  function DistrictOverview(stats: Dict<DistrictStats>, query: string): (r: seq<DistrictStats>)
    requires Valid(stats)
    ensures multiset(r) == multiset(FilterDistricts(Values(stats), query))
    ensures forall i, j :: 0 <= i < j < |r| ==> NamesInOrder(r[i].name, r[j].name)
  {
    DistrictLePreorder();
    SortBy(FilterDistricts(Values(stats), query), DistrictLe)
  }

  /** Some card in `r` is for district `name`. */
  predicate HasCard(r: seq<DistrictStats>, name: string) {
    exists j :: 0 <= j < |r| && r[j].name == name
  }

  /** Cards filed under their own names. */
  ghost predicate FiledByName(stats: Dict<DistrictStats>) {
    Valid(stats) && forall k :: k in stats.vals ==> stats.vals[k].name == k
  }

  lemma {:induction false} CoversKeys(stats: Dict<DistrictStats>, r: seq<DistrictStats>)
    requires FiledByName(stats)
    requires multiset(r) == multiset(Values(stats))
    ensures forall k :: k in stats.keys ==> HasCard(r, k)
    ensures forall j :: 0 <= j < |r| ==> r[j].name in stats.keys
  {
    var v := Values(stats);
    PermutationMembers(v, r);
    forall k | k in stats.keys ensures HasCard(r, k) {
      var m :| 0 <= m < |stats.keys| && stats.keys[m] == k;
      assert v[m].name == k;
      assert v[m] in r;
      var j :| 0 <= j < |r| && r[j] == v[m];
    }
    forall j | 0 <= j < |r| ensures r[j].name in stats.keys {
      var m :| 0 <= m < |v| && v[m] == r[j];
      assert v[m].name == stats.keys[m];
    }
  }

  lemma {:induction false} NamesDistinct(stats: Dict<DistrictStats>, f: seq<DistrictStats>, r: seq<DistrictStats>)
    requires FiledByName(stats)
    requires Distinct(f) && forall i :: 0 <= i < |f| ==> f[i] in Values(stats)
    requires multiset(r) == multiset(f)
    ensures forall i, j :: 0 <= i < j < |r| ==> r[i].name != r[j].name
  {
    var v := Values(stats);
    DistinctPermutation(f, r);
    PermutationMembers(f, r);
    forall i, j | 0 <= i < j < |r| ensures r[i].name != r[j].name {
      assert r[i] in f && r[j] in f;
      var a :| 0 <= a < |v| && v[a] == r[i];
      var b :| 0 <= b < |v| && v[b] == r[j];
      assert v[a].name == stats.keys[a] && v[b].name == stats.keys[b];
    }
  }

  lemma {:induction false} CoversLabels(stats: Dict<DistrictStats>, r: seq<DistrictStats>, labels: seq<string>)
    requires FiledByName(stats)
    requires forall k :: k in stats.vals <==> k in labels
    requires multiset(r) == multiset(Values(stats))
    ensures forall i :: 0 <= i < |labels| ==> HasCard(r, labels[i])
    ensures forall j :: 0 <= j < |r| ==> r[j].name in labels
  {
    CoversKeys(stats, r);
    forall i | 0 <= i < |labels| ensures HasCard(r, labels[i]) {
      assert labels[i] in stats.vals;
      assert labels[i] in stats.keys;
    }
  }

  /** With no search there is a card for every district that has records, and
      only for those. */
  lemma OverviewCoversDistricts(cs: seq<Constituency>, polled: PolledVotes, query: string)
    requires IsBlank(query)
    ensures Valid(Rollup(cs, polled))
    ensures var r := DistrictOverview(Rollup(cs, polled), query);
            && (forall i :: 0 <= i < |cs| ==> HasCard(r, DistrictLabel(cs[i])))
            && (forall j :: 0 <= j < |r| ==> r[j].name in Labels(cs))
  {
    RollupWellFormed(cs, polled);
    var stats := Rollup(cs, polled);
    assert FiledByName(stats);
    var v := Values(stats);
    assert FilterDistricts(v, query) == v;
    var r := DistrictOverview(stats, query);
    assert multiset(r) == multiset(v);
    var labels := Labels(cs);
    CoversLabels(stats, r, labels);
    forall i | 0 <= i < |cs| ensures HasCard(r, DistrictLabel(cs[i])) {
      assert labels[i] == DistrictLabel(cs[i]);
    }
  }

  /** No district has two cards. */
  lemma OverviewNamesDistinct(cs: seq<Constituency>, polled: PolledVotes, query: string)
    ensures Valid(Rollup(cs, polled))
    ensures var r := DistrictOverview(Rollup(cs, polled), query);
            forall i, j :: 0 <= i < j < |r| ==> r[i].name != r[j].name
  {
    RollupWellFormed(cs, polled);
    var stats := Rollup(cs, polled);
    var v := Values(stats);
    CardsDistinct(stats);
    var f := FilterDistricts(v, query);
    FilterMembers(v, f);
    NamesDistinct(stats, f, DistrictOverview(stats, query));
  }

  /** Cards filed under distinct keys and named after them are distinct. */
  lemma CardsDistinct(stats: Dict<DistrictStats>)
    requires CardsWellFormed(stats)
    ensures Distinct(Values(stats))
  {
    var v := Values(stats);
    forall a, b | 0 <= a < b < |v| ensures v[a] != v[b] {
      assert v[a].name == stats.keys[a] && v[b].name == stats.keys[b];
    }
  }

  lemma FilterMembers(v: seq<DistrictStats>, f: seq<DistrictStats>)
    requires IsSubsequence(f, v)
    ensures forall i :: 0 <= i < |f| ==> f[i] in v
  {
    SubsequenceMembers(f, v);
  }

  // ---------------------------------------------------- selected district

  predicate AcLe(a: Constituency, b: Constituency) {
    a.acNo - b.acNo <= 0
  }

  lemma AcLePreorder()
    ensures TotalPreorder(AcLe)
  {
  }

  /** `selectedDistrictConstituencies` as written: nothing for "all", else the
      records whose stored district is exactly the selection, by AC number. */
  function DistrictConstituencies(cs: seq<Constituency>, selected: string): (r: seq<Constituency>)
    ensures selected == "all" ==> r == []
    ensures selected != "all" ==> multiset(r) == multiset(Filter(cs, (c: Constituency) => c.district == selected))
    ensures forall i :: 0 <= i < |r| ==> r[i].district == selected
    ensures forall i, j :: 0 <= i < j < |r| ==> r[i].acNo <= r[j].acNo
  {
    if selected == "all" then []
    else
      AcLePreorder();
      var inSelected := (c: Constituency) => c.district == selected;
      var f := Filter(cs, inSelected);
      var r := SortBy(f, AcLe);
      PermutationAll(f, r, inSelected);
      r
  }

  /** A record without a district is counted on the "Unknown" card, but
      selecting that card lists nothing. */
  lemma UnknownCardListsNothing(polled: PolledVotes)
    ensures var c := Constituency(1, "Ichchapuram", "", 0, "0%", 0,
                                  CandidateDetails("A", "TDP", 0), CandidateDetails("B", "YSRCP", 0), 0, []);
            && UnknownDistrict in Rollup([c], polled).vals
            && Rollup([c], polled).vals[UnknownDistrict].totalSeats == 1
            && DistrictConstituencies([c], UnknownDistrict) == []
  {
    var c := Constituency(1, "Ichchapuram", "", 0, "0%", 0,
                          CandidateDetails("A", "TDP", 0), CandidateDetails("B", "YSRCP", 0), 0, []);
    assert [c][..0] == [];
  }

  /** The selected district's list matched on the same label as the cards,
      `(c.District || "Unknown") === selected`. */
  function DistrictConstituenciesByLabel(cs: seq<Constituency>, selected: string): (r: seq<Constituency>)
    ensures selected == "all" ==> r == []
    ensures selected != "all" ==> multiset(r) == multiset(InDistrict(cs, selected))
    ensures forall i :: 0 <= i < |r| ==> DistrictLabel(r[i]) == selected
    ensures forall i, j :: 0 <= i < j < |r| ==> r[i].acNo <= r[j].acNo
  {
    if selected == "all" then []
    else
      AcLePreorder();
      var f := InDistrict(cs, selected);
      var r := SortBy(f, AcLe);
      PermutationAll(f, r, c => DistrictLabel(c) == selected);
      r
  }

  /** Selecting a card lists exactly as many constituencies as the card counts. */
  lemma SelectedListMatchesCard(cs: seq<Constituency>, polled: PolledVotes, k: string)
    requires k != "all"
    requires k in Rollup(cs, polled).vals
    ensures |DistrictConstituenciesByLabel(cs, k)| == Rollup(cs, polled).vals[k].totalSeats
  {
    RollupCountsDistrict(cs, polled, k);
    var r := DistrictConstituenciesByLabel(cs, k);
    assert |multiset(r)| == |multiset(InDistrict(cs, k))|;
  }
}
