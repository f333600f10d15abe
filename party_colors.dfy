/** The party colour tables of `src/lib/partyColors.ts`: exact, case-sensitive
    lookups with a fallback for every other label. */
module PartyColors {

  const PartyColorTable: map<string, string> := map[
    "TDP" := "hsl(45, 100%, 50%)",
    "YSRCP" := "hsl(142, 70%, 35%)",
    "BJP" := "hsl(30, 100%, 60%)",
    "INC" := "hsl(200, 80%, 50%)",
    "JnP" := "hsl(280, 60%, 50%)",
    "BSP" := "hsl(220, 60%, 45%)",
    "NOTA" := "hsl(0, 0%, 50%)",
    "IND" := "hsl(0, 0%, 60%)"
  ]

  const DefaultColor: string := "hsl(0, 0%, 70%)"

  const BgClassTable: map<string, string> := map[
    "TDP" := "bg-party-tdp",
    "YSRCP" := "bg-party-ysrcp",
    "BJP" := "bg-party-bjp",
    "INC" := "bg-party-inc",
    "JnP" := "bg-party-jnp",
    "BSP" := "bg-party-bsp",
    "NOTA" := "bg-party-nota",
    "IND" := "bg-party-ind"
  ]

  const DefaultBgClass: string := "bg-party-other"

  /** The parties drawn with dark text on their light background. */
  const DarkTextParties: seq<string> := ["TDP", "BJP"]

  /** The eight labels both tables know. */
  const KnownParties: set<string> := {"TDP", "YSRCP", "BJP", "INC", "JnP", "BSP", "NOTA", "IND"}

  /** `PARTY_COLORS[party] || "hsl(0, 0%, 70%)"`. Every table value is a
      non-empty string, so `||` falls back exactly on a missing key. */
  function GetPartyColor(party: string): (c: string)
    ensures party in KnownParties ==> c == PartyColorTable[party]
    ensures party !in KnownParties ==> c == DefaultColor
    ensures c != ""
  {
    if party in PartyColorTable && PartyColorTable[party] != "" then PartyColorTable[party] else DefaultColor
  }

  /** `bgClasses[party] || "bg-party-other"`. */
  function GetPartyBgClass(party: string): (c: string)
    ensures party in KnownParties ==> c == BgClassTable[party]
    ensures party !in KnownParties ==> c == DefaultBgClass
  {
    if party in BgClassTable && BgClassTable[party] != "" then BgClassTable[party] else DefaultBgClass
  }

  /** `darkTextParties.includes(party) ? "text-foreground" : "text-white"`. */
  function GetPartyTextClass(party: string): (c: string)
    ensures c == "text-foreground" <==> party == "TDP" || party == "BJP"
    ensures c != "text-foreground" ==> c == "text-white"
  {
    if party in DarkTextParties then "text-foreground" else "text-white"
  }

  /** Both tables cover the same eight parties, and every known party has a
      colour other than the fallback. */
  lemma TablesAgree()
    ensures PartyColorTable.Keys == BgClassTable.Keys == KnownParties
    ensures forall p :: p in KnownParties ==> GetPartyColor(p) != DefaultColor
    ensures forall p :: p in KnownParties ==> GetPartyBgClass(p) != DefaultBgClass
  {
    TableKeys();
    forall p | p in KnownParties
      ensures GetPartyColor(p) != DefaultColor && GetPartyBgClass(p) != DefaultBgClass
    {
      KnownPartyColors(p);
    }
  }

  lemma TableKeys()
    ensures PartyColorTable.Keys == BgClassTable.Keys == KnownParties
  {
  }

  lemma KnownPartyColors(p: string)
    requires p in KnownParties
    ensures GetPartyColor(p) != DefaultColor && GetPartyBgClass(p) != DefaultBgClass
  {
  }

  /** Lookups are case-sensitive: a lower-case label gets the fallbacks. */
  lemma LookupIsCaseSensitive()
    ensures GetPartyColor("tdp") == DefaultColor
    ensures GetPartyBgClass("tdp") == DefaultBgClass
    ensures GetPartyTextClass("tdp") == "text-white"
  {
  }
}
