/**
 * The view root: the canvas record and the transitions the page applies to it
 * (field edits, the AI suggestion merge, reset, the initial load), the PDF
 * file name, and the lookup of a section's metadata.
 */
module App {
  import opened Wrappers
  import opened JsText
  import opened Types
  import opened Constants

  // ----- Field edits -------------------------------------------------------------

  /** Writing the same value twice is the same as writing it once. */
  lemma UpdateFieldIdempotent(d: CanvasData, key: Field, value: string)
    ensures d.With(key, value).With(key, value) == d.With(key, value)
  {
    var once := d.With(key, value);
    GetExtensional(once.With(key, value), once);
  }

  /** Edits of two different fields commute. */
  lemma UpdateFieldsCommute(d: CanvasData, f: Field, v: string, g: Field, w: string)
    requires f != g
    ensures d.With(f, v).With(g, w) == d.With(g, w).With(f, v)
  {
    GetExtensional(d.With(f, v).With(g, w), d.With(g, w).With(f, v));
  }

  /** A later edit of a field overrides an earlier one. */
  lemma UpdateFieldLastWins(d: CanvasData, key: Field, v: string, w: string)
    ensures d.With(key, v).With(key, w) == d.With(key, w)
  {
    GetExtensional(d.With(key, v).With(key, w), d.With(key, w));
  }

  // ----- The AI suggestion merge -------------------------------------------------

  /** The record whose field `f` holds `value(f)`, for every field. */
  function Assemble(value: Field -> string): CanvasData {
    CanvasData(
      value(Meta(ProjectName)), value(Meta(DesignedBy)), value(Meta(Date)), value(Meta(Version)),
      value(Section(Tam)), value(Section(Hypothesis)), value(Section(Problems)),
      value(Section(Alternatives)), value(Section(Solution)), value(Section(Metrics)),
      value(Section(Uvp)), value(Section(Concept)), value(Section(Advantage)),
      value(Section(Channels)), value(Section(Segments)), value(Section(Adopters)),
      value(Section(Costs)), value(Section(Revenue)))
  }

  /** Reading a field of an assembled record gives the value it was assembled from. */
  lemma AssembleGet(value: Field -> string)
    ensures forall f :: Assemble(value).Get(f) == value(f)
  {
    forall f ensures Assemble(value).Get(f) == value(f) {
      match f
      case Meta(_) =>
      case Section(_) =>
    }
  }

  /**
   * `{ ...prev, ...suggestions }`: every key present in the (partial)
   * suggestions takes the suggested value, every other key keeps its value.
   */
  function Merge(prev: CanvasData, suggestions: map<Field, string>): (r: CanvasData)
    ensures forall f :: r.Get(f) == (if f in suggestions then suggestions[f] else prev.Get(f))
  {
    var value := (f: Field) => if f in suggestions then suggestions[f] else prev.Get(f);
    AssembleGet(value);
    Assemble(value)
  }

  /** Merging no suggestions changes nothing. */
  lemma MergeEmpty(prev: CanvasData)
    ensures Merge(prev, map[]) == prev
  {
    GetExtensional(Merge(prev, map[]), prev);
  }

  /** Spreading one more suggestion is the same as editing that field after the merge. */
  lemma MergeIsFieldEdits(prev: CanvasData, suggestions: map<Field, string>, f: Field, v: string)
    ensures Merge(prev, suggestions[f := v]) == Merge(prev, suggestions).With(f, v)
  {
    var lhs, rhs := Merge(prev, suggestions[f := v]), Merge(prev, suggestions).With(f, v);
    forall g ensures lhs.Get(g) == rhs.Get(g) {
      MergeEditAt(prev, suggestions, f, v, g);
    }
    GetExtensional(lhs, rhs);
  }

  /** `MergeIsFieldEdits`, one field at a time. */
  lemma MergeEditAt(prev: CanvasData, suggestions: map<Field, string>, f: Field, v: string, g: Field)
    ensures Merge(prev, suggestions[f := v]).Get(g) == Merge(prev, suggestions).With(f, v).Get(g)
  {
    if g == f {
      assert Merge(prev, suggestions[f := v]).Get(g) == v;
    } else {
      assert Merge(prev, suggestions[f := v]).Get(g) == Merge(prev, suggestions).Get(g);
    }
  }

  /** Suggestions that hold only canvas keys leave the four metadata fields as they were. */
  lemma MergeKeepsMetadata(prev: CanvasData, suggestions: map<Field, string>)
    requires forall f | f in suggestions :: f.Section?
    ensures var r := Merge(prev, suggestions);
      && r.projectName == prev.projectName && r.designedBy == prev.designedBy
      && r.date == prev.date && r.version == prev.version
  {
    var r := Merge(prev, suggestions);
    assert r.Get(Meta(ProjectName)) == prev.Get(Meta(ProjectName));
    assert r.Get(Meta(DesignedBy)) == prev.Get(Meta(DesignedBy));
    assert r.Get(Meta(Date)) == prev.Get(Meta(Date));
    assert r.Get(Meta(Version)) == prev.Get(Meta(Version));
  }

  /** Suggestions naming all fourteen canvas keys replace every section's text, whatever was there. */
  lemma MergeFullSuggestions(a: CanvasData, b: CanvasData, suggestions: map<Field, string>)
    requires forall k: CanvasKey :: Section(k) in suggestions
    ensures forall k: CanvasKey :: Merge(a, suggestions).Get(Section(k)) == Merge(b, suggestions).Get(Section(k))
  {
  }

  // ----- Initial load ------------------------------------------------------------

  /**
   * What the browser store holds under the canvas key: nothing, or a raw
   * string together with the record `JSON.parse` makes of it.
   */
  datatype Stored = Missing | Saved(raw: string, parsed: CanvasData)

  /** The `useState` initialiser: a truthy saved string is parsed, otherwise the defaults are used. */
  function LoadInitial(stored: Stored, defaults: CanvasData): CanvasData {
    if stored.Saved? && stored.raw != "" then stored.parsed else defaults
  }

  /** An absent or empty saved value gives the defaults; any other gives the parsed record. */
  lemma LoadFallback(stored: Stored, defaults: CanvasData)
    ensures stored.Missing? || stored.raw == "" ==> LoadInitial(stored, defaults) == defaults
    ensures stored.Saved? && stored.raw != "" ==> LoadInitial(stored, defaults) == stored.parsed
  {
  }

  // ----- The PDF file name -------------------------------------------------------

  /**
   * The scan behind `s.replace(/\s+/g, '_')`, one character at a time:
   * `inRun` says whether the character before `s` was whitespace. A
   * whitespace character that opens a run writes one underscore, the rest of
   * the run writes nothing, any other character is copied.
   */
  function CollapseFrom(s: string, inRun: bool): (r: string)
    ensures NoWs(r)
    ensures |r| <= |s|
  {
    if s == [] then []
    else if IsWs(s[0]) then (if inRun then [] else "_") + CollapseFrom(s[1..], true)
    else [s[0]] + CollapseFrom(s[1..], false)
  }

  /** `s.replace(/\s+/g, '_')`: each maximal run of whitespace becomes one underscore. */
  function CollapseWs(s: string): (r: string)
    ensures NoWs(r)
    ensures |r| <= |s|
  {
    CollapseFrom(s, false)
  }

  /** Whether the scan is inside a whitespace run after reading `a`. */
  function EndsInRun(a: string, inRun: bool): bool {
    if a == [] then inRun else IsWs(a[|a| - 1])
  }

  /** The scan of `a + t` is the scan of `a` followed by the scan of `t` in the state `a` left. */
  lemma {:induction false} CollapseFromAppend(a: string, t: string, inRun: bool)
    ensures CollapseFrom(a + t, inRun) == CollapseFrom(a, inRun) + CollapseFrom(t, EndsInRun(a, inRun))
  {
    if a == [] {
      assert a + t == t;
    } else {
      var next := IsWs(a[0]);
      var head := if next then (if inRun then [] else "_") else [a[0]];
      calc {
        CollapseFrom(a + t, inRun);
        { assert (a + t)[0] == a[0]; }
        head + CollapseFrom((a + t)[1..], next);
        { assert (a + t)[1..] == a[1..] + t; }
        head + CollapseFrom(a[1..] + t, next);
        { CollapseFromAppend(a[1..], t, next); }
        head + (CollapseFrom(a[1..], next) + CollapseFrom(t, EndsInRun(a[1..], next)));
        { assert EndsInRun(a[1..], next) == EndsInRun(a, inRun); }
        head + CollapseFrom(a[1..], next) + CollapseFrom(t, EndsInRun(a, inRun));
        CollapseFrom(a, inRun) + CollapseFrom(t, EndsInRun(a, inRun));
      }
    }
  }

  /** A name without whitespace is left as it is, whatever the scan state. */
  lemma {:induction false} CollapseFromIdentity(s: string, inRun: bool)
    requires NoWs(s)
    ensures CollapseFrom(s, inRun) == s
  {
    if s != [] {
      assert !IsWs(s[0]);
      CollapseFromIdentity(s[1..], false);
    }
  }

  /** A name without whitespace is left as it is. */
  lemma CollapseWsIdentity(s: string)
    requires NoWs(s)
    ensures CollapseWs(s) == s
  {
    CollapseFromIdentity(s, false);
  }

  /** Collapsing twice is collapsing once. */
  lemma CollapseWsIdempotent(s: string)
    ensures CollapseWs(CollapseWs(s)) == CollapseWs(s)
  {
    CollapseWsIdentity(CollapseWs(s));
  }

  /** The text up to a non-whitespace character collapses on its own. */
  lemma CollapseWsAppend(a: string, t: string)
    requires a == [] || !IsWs(a[|a| - 1])
    ensures CollapseWs(a + t) == CollapseWs(a) + CollapseWs(t)
  {
    CollapseFromAppend(a, t, false);
  }

  /** A whitespace run, in any state, writes one underscore at most and leaves the scan inside a run. */
  lemma {:induction false} CollapseFromRun(w: string, inRun: bool)
    requires w != [] && AllWs(w)
    ensures CollapseFrom(w, inRun) == if inRun then [] else "_"
  {
    assert IsWs(w[0]);
    if |w| > 1 {
      CollapseFromRun(w[1..], true);
    }
  }

  /** A whitespace run before a non-whitespace character (or the end) becomes exactly one underscore. */
  lemma CollapseWsRun(w: string, b: string)
    requires w != [] && AllWs(w)
    requires b == [] || !IsWs(b[0])
    ensures CollapseWs(w + b) == "_" + CollapseWs(b)
  {
    CollapseFromAppend(w, b, false);
    CollapseFromRun(w, false);
    assert IsWs(w[|w| - 1]);
    if b != [] {
      assert CollapseFrom(b, true) == [b[0]] + CollapseFrom(b[1..], false) == CollapseFrom(b, false);
    }
  }

  /** Two words joined by one space become the first word, an underscore and the collapsed rest. */
  lemma CollapseWsWords(x: string, y: string)
    requires x != [] && NoWs(x)
    requires y != [] && !IsWs(y[0])
    ensures CollapseWs(x + " " + y) == x + "_" + CollapseWs(y)
  {
    CollapseWsIdentity(x);
    CollapseWsRun(" ", y);
    var c := CollapseWs(y);
    assert x + " " + y == x + (" " + y);
    CollapseWsAppend(x, " " + y);
    assert x + "_" + c == x + ("_" + c);
  }

  /** The suffix the export appends. */
  const PdfSuffix: string := "_MVP_Roadmap.pdf"

  /** `${projectName.replace(/\s+/g, '_')}_MVP_Roadmap.pdf`. */
  function PdfFileName(projectName: string): (name: string)
    ensures NoWs(name)
    ensures |name| >= |PdfSuffix| && name[|name| - |PdfSuffix|..] == PdfSuffix
  {
    var stem := CollapseWs(projectName);
    PdfSuffixHasNoWs();
    NoWsAppend(stem, PdfSuffix);
    assert (stem + PdfSuffix)[|stem|..] == PdfSuffix;
    stem + PdfSuffix
  }

  /** The suffix itself has no whitespace. */
  lemma PdfSuffixHasNoWs()
    ensures NoWs(PdfSuffix)
  {
  }

  /** A whitespace-free project name is used as it is, before the suffix. */
  lemma PdfFileNamePlain(projectName: string)
    requires NoWs(projectName)
    ensures PdfFileName(projectName) == projectName + PdfSuffix
  {
    CollapseWsIdentity(projectName);
  }

  /** Three words separated by single spaces come out joined by underscores. */
  lemma CollapseWsThreeWords(x: string, y: string, z: string)
    requires x != [] && NoWs(x) && y != [] && NoWs(y) && z != [] && NoWs(z)
    ensures CollapseWs(x + " " + y + " " + z) == x + "_" + y + "_" + z
  {
    var tail := y + " " + z;
    assert x + " " + y + " " + z == x + " " + tail;
    CollapseWsIdentity(z);
    CollapseWsWords(y, z);
    CollapseWsWords(x, tail);
    assert x + "_" + (y + "_" + z) == x + "_" + y + "_" + z;
  }

  /** The default project name gives `My_Startup_Name_MVP_Roadmap.pdf`. */
  lemma DefaultPdfFileName()
    ensures PdfFileName(DefaultProjectName) == "My" + "_" + "Startup" + "_" + "Name" + PdfSuffix
  {
    assert DefaultProjectName == "My" + " " + "Startup" + " " + "Name";
    CollapseWsThreeWords("My", "Startup", "Name");
  }

  // ----- Section lookup -----------------------------------------------------------

  /** `i` is the first position of `sections` whose entry has id `key`. */
  predicate FirstWith(sections: seq<SectionMetadata>, key: CanvasKey, i: int) {
    0 <= i < |sections| && sections[i].id == key && forall j | 0 <= j < i :: sections[j].id != key
  }

  /** `sections.find(s => s.id === key)`: the first entry with that id, if any. */
  function FindSection(sections: seq<SectionMetadata>, key: CanvasKey): (r: Option<SectionMetadata>)
    ensures r.Some? ==> exists i :: FirstWith(sections, key, i) && sections[i] == r.value
    ensures r.None? <==> key !in Ids(sections)
  {
    if sections == [] then None
    else if sections[0].id == key then
      assert FirstWith(sections, key, 0);
      Some(sections[0])
    else
      assert Ids(sections) == [sections[0].id] + Ids(sections[1..]);
      var r := FindSection(sections[1..], key);
      if r.Some? then FirstShifts(sections, key, r.value); r else r
  }

  /** A first position in the tail, moved one on, is a first position in the whole list when the head lacks the id. */
  lemma FirstShifts(sections: seq<SectionMetadata>, key: CanvasKey, v: SectionMetadata)
    requires |sections| > 0 && sections[0].id != key
    requires exists i :: FirstWith(sections[1..], key, i) && sections[1..][i] == v
    ensures exists i :: FirstWith(sections, key, i) && sections[i] == v
  {
    var i :| FirstWith(sections[1..], key, i) && sections[1..][i] == v;
    forall j | 0 <= j < i + 1 ensures sections[j].id != key {
      if j > 0 { assert sections[j] == sections[1..][j - 1]; }
    }
    assert FirstWith(sections, key, i + 1);
  }

  /** `getSection`: the table entry for `key`; the lookup never fails because every key is in the table. */
  function GetSection(key: CanvasKey): (m: SectionMetadata)
    ensures m in CanvasSections && m.id == key
  {
    SectionsCoverKeys();
    FindSection(CanvasSections, key).value
  }

  /** The entry found is the one at the key's position in the enumeration. */
  lemma GetSectionAt(key: CanvasKey)
    ensures GetSection(key) == CanvasSections[KeyIndex(key)]
  {
    SectionsCoverKeys();
    var m := GetSection(key);
    var i :| 0 <= i < |CanvasSections| && CanvasSections[i] == m;
    assert Ids(CanvasSections)[i] == key;
  }

  /** The canvas rows, each a pair of sections, top to bottom. */
  const Layout: seq<(CanvasKey, CanvasKey)> := [
    (Tam, Hypothesis), (Problems, Alternatives), (Solution, Metrics), (Uvp, Concept),
    (Advantage, Channels), (Segments, Adopters), (Costs, Revenue)
  ]

  /** The rows lay out the table's entries in table order, two per row. */
  lemma LayoutFollowsTable()
    ensures |Layout| * 2 == |CanvasSections|
    ensures forall r | 0 <= r < |Layout| ::
      Layout[r].0 == CanvasSections[2 * r].id && Layout[r].1 == CanvasSections[2 * r + 1].id
  {
    var ids := Ids(CanvasSections);
    assert ids == AllKeys by { SectionsCoverKeys(); }
    forall r | 0 <= r < |Layout|
      ensures Layout[r].0 == ids[2 * r] && Layout[r].1 == ids[2 * r + 1]
    {
      assert Layout[r] == (AllKeys[2 * r], AllKeys[2 * r + 1]);
    }
  }

  // ----- The page state ---------------------------------------------------------

  /** What the suggestion service gives back for a prompt: a partial record, or a failure. */
  datatype Reply = Suggested(suggestions: map<Field, string>) | Failed

  /** The state the page component keeps. */
  class AppState {
    /** `INITIAL_CANVAS_DATA`, fixed when the constants module loads. */
    const defaults: CanvasData
    var data: CanvasData
    var isGenerating: bool
    var ideaPrompt: string
    var showAiModal: bool

    /** First render: the record comes from the store, or is the defaults; nothing else is under way. */
    constructor (stored: Stored, isoNow: string)
      ensures defaults == InitialCanvasData(isoNow)
      ensures data == LoadInitial(stored, defaults)
      ensures !isGenerating && ideaPrompt == "" && !showAiModal
    {
      defaults := InitialCanvasData(isoNow);
      data := LoadInitial(stored, InitialCanvasData(isoNow));
      isGenerating, ideaPrompt, showAiModal := false, "", false;
    }

    /** `updateField(key, value)`: one field is overwritten, nothing else changes. */
    method UpdateField(key: Field, value: string)
      modifies this
      ensures data == old(data).With(key, value)
      ensures isGenerating == old(isGenerating) && ideaPrompt == old(ideaPrompt)
      ensures showAiModal == old(showAiModal)
    {
      data := data.With(key, value);
    }

    /** Typing in the idea box. */
    method SetIdeaPrompt(prompt: string)
      modifies this
      ensures ideaPrompt == prompt
      ensures data == old(data) && isGenerating == old(isGenerating) && showAiModal == old(showAiModal)
    {
      ideaPrompt := prompt;
    }

    /** Opening (`true`) or closing (`false`) the suggestion dialog. */
    method SetShowAiModal(show: bool)
      modifies this
      ensures showAiModal == show
      ensures data == old(data) && isGenerating == old(isGenerating) && ideaPrompt == old(ideaPrompt)
    {
      showAiModal := show;
    }

    /**
     * The body of the `try` in `handleAiFill`, with the service's answer as
     * `reply`: a suggestion is merged and closes the dialog, a failure raises
     * the alert and changes nothing; the generating flag is cleared at the end.
     */
    method ApplyReply(reply: Reply) returns (alerted: bool)
      modifies this
      ensures ideaPrompt == old(ideaPrompt) && !isGenerating
      ensures reply.Suggested? ==> data == Merge(old(data), reply.suggestions) && !showAiModal && !alerted
      ensures reply.Failed? ==> data == old(data) && showAiModal == old(showAiModal) && alerted
    {
      match reply {
        case Suggested(suggestions) =>
          data := Merge(data, suggestions);
          showAiModal := false;
          alerted := false;
        case Failed =>
          alerted := true;
      }
      isGenerating := false;
    }

    /**
     * `handleAiFill`: a blank prompt makes it do nothing and send nothing;
     * otherwise the generating flag is raised, the request is sent and its
     * answer applied.
     */
    method HandleAiFill(reply: Reply) returns (requested: bool, alerted: bool)
      modifies this
      ensures requested <==> !AllWs(old(ideaPrompt))
      ensures ideaPrompt == old(ideaPrompt)
      ensures !requested ==> && data == old(data) && isGenerating == old(isGenerating)
                             && showAiModal == old(showAiModal) && !alerted
      ensures requested ==> !isGenerating
      ensures requested && reply.Suggested? ==>
        data == Merge(old(data), reply.suggestions) && !showAiModal && !alerted
      ensures requested && reply.Failed? ==> data == old(data) && showAiModal == old(showAiModal) && alerted
    {
      TrimEmptyIff(ideaPrompt);
      if |Trim(ideaPrompt)| == 0 {
        return false, false;
      }
      requested := true;
      isGenerating := true;
      alerted := ApplyReply(reply);
    }

    /** The Reset button: a confirmed reset restores exactly the defaults, a declined one changes nothing. */
    method Reset(confirmed: bool)
      modifies this
      ensures data == if confirmed then defaults else old(data)
      ensures isGenerating == old(isGenerating) && ideaPrompt == old(ideaPrompt)
      ensures showAiModal == old(showAiModal)
    {
      if confirmed {
        data := defaults;
      }
    }

    /** The file name the export uses for the current project name. */
    function ExportFileName(): (name: string)
      reads this
      ensures NoWs(name)
      ensures name == PdfFileName(data.projectName)
    {
      PdfFileName(data.projectName)
    }
  }
}
