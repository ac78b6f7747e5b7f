/** The canvas record, its keys and the per-section display metadata. */
module Types {
  import opened Wrappers

  /** The fourteen canvas sections. */
  datatype CanvasKey =
    | Tam | Hypothesis | Problems | Alternatives | Solution | Metrics | Uvp
    | Concept | Advantage | Channels | Segments | Adopters | Costs | Revenue

  /** The four metadata entries of the header row. */
  datatype MetaKey = ProjectName | DesignedBy | Date | Version

  /** Every key `updateField` accepts: a canvas key or one of the metadata names. */
  datatype Field = Meta(meta: MetaKey) | Section(key: CanvasKey)

  /** The keys in declaration order. */
  const AllKeys: seq<CanvasKey> := [
    Tam, Hypothesis, Problems, Alternatives, Solution, Metrics, Uvp,
    Concept, Advantage, Channels, Segments, Adopters, Costs, Revenue
  ]

  /** The position of `k` in the enumeration. */
  function KeyIndex(k: CanvasKey): (i: nat)
    ensures i < |AllKeys| && AllKeys[i] == k
  {
    match k
    case Tam => 0
    case Hypothesis => 1
    case Problems => 2
    case Alternatives => 3
    case Solution => 4
    case Metrics => 5
    case Uvp => 6
    case Concept => 7
    case Advantage => 8
    case Channels => 9
    case Segments => 10
    case Adopters => 11
    case Costs => 12
    case Revenue => 13
  }

  /** The enumeration lists every key exactly once. */
  lemma AllKeysComplete()
    ensures |AllKeys| == 14
    ensures forall k: CanvasKey :: k in AllKeys
    ensures forall i, j | 0 <= i < j < |AllKeys| :: AllKeys[i] != AllKeys[j]
  {
    forall k: CanvasKey ensures k in AllKeys {
      var i := KeyIndex(k);
    }
  }

  /** The canvas record: four metadata strings and one free text per section, always all present. */
  datatype CanvasData = CanvasData(
    projectName: string, designedBy: string, date: string, version: string,
    tam: string, hypothesis: string, problems: string, alternatives: string,
    solution: string, metrics: string, uvp: string, concept: string,
    advantage: string, channels: string, segments: string, adopters: string,
    costs: string, revenue: string)
  {
    /** The value stored under `f`, the model of `data[f]`. */
    function Get(f: Field): string {
      match f
      case Meta(ProjectName) => projectName
      case Meta(DesignedBy) => designedBy
      case Meta(Date) => date
      case Meta(Version) => version
      case Section(Tam) => tam
      case Section(Hypothesis) => hypothesis
      case Section(Problems) => problems
      case Section(Alternatives) => alternatives
      case Section(Solution) => solution
      case Section(Metrics) => metrics
      case Section(Uvp) => uvp
      case Section(Concept) => concept
      case Section(Advantage) => advantage
      case Section(Channels) => channels
      case Section(Segments) => segments
      case Section(Adopters) => adopters
      case Section(Costs) => costs
      case Section(Revenue) => revenue
    }

    /** The record `{ ...this, [f]: v }`: `f` now holds `v`, every other entry is as before. */
    function With(f: Field, v: string): (r: CanvasData)
      ensures r.Get(f) == v
      ensures forall g :: g != f ==> r.Get(g) == Get(g)
    {
      match f
      case Meta(ProjectName) => this.(projectName := v)
      case Meta(DesignedBy) => this.(designedBy := v)
      case Meta(Date) => this.(date := v)
      case Meta(Version) => this.(version := v)
      case Section(Tam) => this.(tam := v)
      case Section(Hypothesis) => this.(hypothesis := v)
      case Section(Problems) => this.(problems := v)
      case Section(Alternatives) => this.(alternatives := v)
      case Section(Solution) => this.(solution := v)
      case Section(Metrics) => this.(metrics := v)
      case Section(Uvp) => this.(uvp := v)
      case Section(Concept) => this.(concept := v)
      case Section(Advantage) => this.(advantage := v)
      case Section(Channels) => this.(channels := v)
      case Section(Segments) => this.(segments := v)
      case Section(Adopters) => this.(adopters := v)
      case Section(Costs) => this.(costs := v)
      case Section(Revenue) => this.(revenue := v)
    }
  }

  /** Reading each metadata entry through `Get` gives that field. */
  lemma GetMetaFields(d: CanvasData)
    ensures d.Get(Meta(ProjectName)) == d.projectName
    ensures d.Get(Meta(DesignedBy)) == d.designedBy
    ensures d.Get(Meta(Date)) == d.date
    ensures d.Get(Meta(Version)) == d.version
  {
  }

  /** Reading the sections from `tam` to `uvp` through `Get` gives those fields. */
  lemma GetFieldsTamToUvp(d: CanvasData)
    ensures d.Get(Section(Tam)) == d.tam
    ensures d.Get(Section(Hypothesis)) == d.hypothesis
    ensures d.Get(Section(Problems)) == d.problems
    ensures d.Get(Section(Alternatives)) == d.alternatives
    ensures d.Get(Section(Solution)) == d.solution
    ensures d.Get(Section(Metrics)) == d.metrics
    ensures d.Get(Section(Uvp)) == d.uvp
  {
  }

  /** Reading the sections from `concept` to `revenue` through `Get` gives those fields. */
  lemma GetFieldsConceptToRevenue(d: CanvasData)
    ensures d.Get(Section(Concept)) == d.concept
    ensures d.Get(Section(Advantage)) == d.advantage
    ensures d.Get(Section(Channels)) == d.channels
    ensures d.Get(Section(Segments)) == d.segments
    ensures d.Get(Section(Adopters)) == d.adopters
    ensures d.Get(Section(Costs)) == d.costs
    ensures d.Get(Section(Revenue)) == d.revenue
  {
  }

  /** Two records are equal exactly when they agree on every field: `Get` loses nothing. */
  lemma GetExtensional(a: CanvasData, b: CanvasData)
    requires forall f :: a.Get(f) == b.Get(f)
    ensures a == b
  {
    GetMetaFields(a);
    GetMetaFields(b);
    GetFieldsTamToUvp(a);
    GetFieldsTamToUvp(b);
    GetFieldsConceptToRevenue(a);
    GetFieldsConceptToRevenue(b);
  }

  /** Static display information for one section. */
  datatype SectionMetadata = SectionMetadata(
    id: CanvasKey, title: string, icon: string, description: string, subtext: Option<string>)
}
