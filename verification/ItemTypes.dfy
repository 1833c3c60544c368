/** Item types and the id prefixes they use, current and legacy. */
module ItemTypes {
  datatype ItemType =
    | Expedition | Chore | Voyage | Campaign | Hazard | Signal | Feature
    | Paper | Hypothesis | Experiment | Measure | Idea | Literature

  const DEV: seq<ItemType> := [Expedition, Chore, Voyage, Campaign, Hazard, Signal, Feature]
  const RESEARCH: seq<ItemType> := [Paper, Hypothesis, Experiment, Measure, Idea, Literature]

  function Prefix(t: ItemType): string {
    match t
    case Expedition => "EX"
    case Chore => "CH"
    case Voyage => "VY"
    case Campaign => "CA"
    case Hazard => "HZ"
    case Signal => "SG"
    case Feature => "FT"
    case Paper => "PAPER"
    case Hypothesis => "H"
    case Experiment => "EXPR"
    case Measure => "M"
    case Idea => "IDEA"
    case Literature => "LIT"
  }

  function LegacyPrefixes(t: ItemType): seq<string> {
    match t
    case Expedition => ["EXP"]
    case Chore => ["CHORE"]
    case Voyage => ["VOY"]
    case Hazard => ["HAZ"]
    case Signal => ["SIG"]
    case Feature => ["FEAT"]
    case _ => []
  }

  function AllPrefixes(t: ItemType): seq<string> {
    [Prefix(t)] + LegacyPrefixes(t)
  }

  function TypeName(t: ItemType): string {
    match t
    case Expedition => "expedition"
    case Chore => "chore"
    case Voyage => "voyage"
    case Campaign => "campaign"
    case Hazard => "hazard"
    case Signal => "signal"
    case Feature => "feature"
    case Paper => "paper"
    case Hypothesis => "hypothesis"
    case Experiment => "experiment"
    case Measure => "measure"
    case Idea => "idea"
    case Literature => "literature"
  }

  function BoardName(t: ItemType): string {
    if t in DEV then "development" else "research"
  }

  /** Every type is on one of the two boards, so a scan over both lists meets every prefix. */
  lemma AllTypes(t: ItemType)
    ensures t in DEV + RESEARCH
  {
    var i := match t
      case Expedition => 0 case Chore => 1 case Voyage => 2 case Campaign => 3 case Hazard => 4 case Signal => 5
      case Feature => 6 case Paper => 7 case Hypothesis => 8 case Experiment => 9 case Measure => 10 case Idea => 11
      case Literature => 12;
    assert (DEV + RESEARCH)[i] == t;
  }
}
