/** The static section table and the default canvas record. */
module Constants {
  import opened Wrappers
  import opened JsText
  import opened Types

  // The table's entries, one per key: id, title, icon, description and helper line.
  const TamEntry: SectionMetadata :=
    SectionMetadata(Tam, "Total Addressable Market", "\U{1F30D}",
      "Estimated total market size and opportunity",
      Some("What is the total size of the market opportunity?"))
  const HypothesisEntry: SectionMetadata :=
    SectionMetadata(Hypothesis, "Hypothesis", "\U{1F9EA}",
      "The primary assumption you are testing",
      Some("What is the core belief that must be true for this to work?"))
  const ProblemsEntry: SectionMetadata :=
    SectionMetadata(Problems, "Problems", "\U{2753}",
      "List your top three problems",
      Some("List your top three problems"))
  const AlternativesEntry: SectionMetadata :=
    SectionMetadata(Alternatives, "Existing Alternatives", "\U{1F504}",
      "How are these problems solved today?",
      Some("Existing alternatives"))
  const SolutionEntry: SectionMetadata :=
    SectionMetadata(Solution, "Solution", "\U{1F4A1}",
      "List your top three features",
      Some("List your top three features"))
  const MetricsEntry: SectionMetadata :=
    SectionMetadata(Metrics, "Key Metrics", "\U{1F4CA}",
      "Key activities you measure",
      Some("Key activities you measure"))
  const UvpEntry: SectionMetadata :=
    SectionMetadata(Uvp, "Unique Value Proposition", "\U{1F48E}",
      "Single, clear, and compelling message that states why you are different and worth buying",
      Some("Single clear and compelling message that states why you are different and worth buying"))
  const ConceptEntry: SectionMetadata :=
    SectionMetadata(Concept, "High-Level Concept", "\U{1F52D}",
      "List your X for Y analogy. Example: YouTube = Flickr for videos",
      Some("List your X for Y analogy. Example: YouTube = Flickr for videos"))
  const AdvantageEntry: SectionMetadata :=
    SectionMetadata(Advantage, "Unfair Advantage", "\U{1F680}",
      "Something that cannot be easily copied or bought",
      Some("Can't be easily occupied, copied or bought"))
  const ChannelsEntry: SectionMetadata :=
    SectionMetadata(Channels, "Channels", "\U{1F4E2}",
      "Path to customers",
      Some("Path to customers"))
  const SegmentsEntry: SectionMetadata :=
    SectionMetadata(Segments, "Customer Segments", "\U{1F465}",
      "Target customers",
      Some("Target customers"))
  const AdoptersEntry: SectionMetadata :=
    SectionMetadata(Adopters, "Early Adopters", "\U{1F3AF}",
      "Characteristics of your ideal customers",
      Some("List the characters of your ideal customers"))
  const CostsEntry: SectionMetadata :=
    SectionMetadata(Costs, "Cost Structure", "\U{1F4B0}",
      "List your fixed and variable costs",
      Some("List your fixed and variable costs, customer acquisition costs, distribution costs, technology costs, people costs, etc."))
  const RevenueEntry: SectionMetadata :=
    SectionMetadata(Revenue, "Revenue Streams", "\U{1F4C8}",
      "Sources of revenue and margins",
      Some("Source of revenue, revenue model, lifetime value, revenue, gross margin"))

  /** The fourteen section descriptions, in the order the canvas lays them out. */
  const CanvasSections: seq<SectionMetadata> := [
    TamEntry, HypothesisEntry, ProblemsEntry, AlternativesEntry, SolutionEntry,
    MetricsEntry, UvpEntry, ConceptEntry, AdvantageEntry, ChannelsEntry,
    SegmentsEntry, AdoptersEntry, CostsEntry, RevenueEntry
  ]

  /** The ids of a list of sections, in order. */
  function Ids(sections: seq<SectionMetadata>): (ids: seq<CanvasKey>)
    ensures |ids| == |sections|
    ensures forall i | 0 <= i < |sections| :: ids[i] == sections[i].id
  {
    seq(|sections|, i requires 0 <= i < |sections| => sections[i].id)
  }

  /** The table has one entry per key, in the enumeration's order, so every key occurs exactly once. */
  lemma SectionsCoverKeys()
    ensures |CanvasSections| == 14
    ensures Ids(CanvasSections) == AllKeys
    ensures forall k: CanvasKey :: k in Ids(CanvasSections)
    ensures forall i, j | 0 <= i < j < |CanvasSections| :: CanvasSections[i].id != CanvasSections[j].id
  {
    var ids := Ids(CanvasSections);
    forall i | 0 <= i < 14 ensures ids[i] == AllKeys[i] {
      assert ids[i] == CanvasSections[i].id;
    }
    assert ids == AllKeys;
    AllKeysComplete();
  }

  /** Every entry carries a non-empty helper line, so the section header always shows one. */
  lemma SubtextsPresent()
    ensures forall i | 0 <= i < |CanvasSections| ::
      CanvasSections[i].subtext.Some? && |CanvasSections[i].subtext.value| > 0
  {
  }

  /** Default project name. */
  const DefaultProjectName: string := "My Startup Name"
  /** Default author. */
  const DefaultDesignedBy: string := "Your Name"
  /** Default iteration label. */
  const DefaultVersion: string := "1.0"

  /**
   * `INITIAL_CANVAS_DATA`. The date is the calendar part of the ISO timestamp
   * taken when the module loads (`toISOString().split('T')[0]`); the clock
   * reading is the parameter `isoNow`.
   */
  function InitialCanvasData(isoNow: string): (d: CanvasData)
    ensures d.projectName == DefaultProjectName && d.designedBy == DefaultDesignedBy
    ensures d.version == DefaultVersion
    ensures d.date == SplitFirst(isoNow, 'T')
    ensures forall k: CanvasKey :: d.Get(Section(k)) == ""
  {
    CanvasData(
      DefaultProjectName, DefaultDesignedBy, SplitFirst(isoNow, 'T'), DefaultVersion,
      "", "", "", "", "", "", "", "", "", "", "", "", "", "")
  }

  /** The default date is the part of the timestamp before its first `T`. */
  lemma DefaultDateIsCalendarPart(isoNow: string, day: string, rest: string)
    requires isoNow == day + "T" + rest && 'T' !in day
    ensures InitialCanvasData(isoNow).date == day
  {
    assert isoNow[|day|] == 'T';
  }
}
