/**
 * The plugin's rendering of the worker's results: one file tab per channel
 * ("JavaScript", "DTS"), and for the chosen channel one stage tab per
 * captured output, in capture order. A stage is active when it is the first
 * or its text differs from the previous capture's; inactive stages keep
 * their tab, disabled. A tab's label is the catalog name at the capture's
 * index, and its text is coloured as JavaScript iff the file name ends in
 * "js".
 */
module StageTabs {
  import opened Wrappers
  import opened Catalog
  import opened Replay

  /** Whether capture `j` changed anything: the first always does. */
  predicate IsActive(stages: seq<Capture>, j: nat)
    requires j < |stages|
  {
    j == 0 || stages[j - 1].text != stages[j].text
  }

  /** `names[s.index]`, which is `undefined` past the end of the catalog. */
  function Label(names: seq<string>, s: Capture): (l: Option<string>)
    ensures l.Some? <==> s.index < |names|
    ensures l.Some? ==> l.value == names[s.index]
  {
    if s.index < |names| then Some(names[s.index]) else None
  }

  /** The language a capture is coloured as, chosen from its file name. */
  function Language(filename: string): (lang: string)
    ensures lang == "javascript" || lang == "typescript"
    ensures lang == "javascript" <==> EndsWith(filename, "js")
  {
    if EndsWith(filename, "js") then "javascript" else "typescript"
  }

  /** A stage tab: its label and whether it is disabled. */
  datatype Tab = Tab(caption: Option<string>, disabled: bool)

  /** What hovering a stage tab shows: the capture's text and its colouring language. */
  datatype Preview = Preview(text: string, language: string)

  function PreviewOf(s: Capture): Preview {
    Preview(s.text, Language(s.filename))
  }

  /**
   * The loop over a channel's captures that appends one stage tab per
   * capture: labelled from the catalog, disabled when the capture is not
   * active.
   */
  method BuildStageTabs(names: seq<string>, stages: seq<Capture>) returns (tabs: seq<Tab>)
    ensures |tabs| == |stages|
    ensures forall j :: 0 <= j < |stages| ==> tabs[j].caption == Label(names, stages[j])
    ensures forall j :: 0 <= j < |stages| ==> (tabs[j].disabled <==> !IsActive(stages, j))
  {
    tabs := [];
    var j := 0;
    while j < |stages|
      invariant 0 <= j <= |stages|
      invariant |tabs| == j
      invariant forall i :: 0 <= i < j ==> tabs[i].caption == Label(names, stages[i])
      invariant forall i :: 0 <= i < j ==> (tabs[i].disabled <==> !IsActive(stages, i))
    {
      var s := stages[j];
      var isActive := j == 0 || stages[j - 1].text != s.text;
      var tabLabel := if s.index < |names| then Some(names[s.index]) else None;
      tabs := tabs + [Tab(tabLabel, !isActive)];
      j := j + 1;
    }
  }

  /**
   * The plugin's panel: file tabs, the chosen one, its stage tabs, the hovered stage and what it shows.
   * A `preview` of `None` is the empty code view, before any text has been coloured into it.
   */
  datatype Panel = Panel(fileTabs: seq<string>, activeFile: nat, stageTabs: seq<Tab>,
                         activeStage: Option<nat>, preview: Option<Preview>)

  const FileTabs: seq<string> := ["JavaScript", "DTS"]

  /** The captures of file tab `i`: the JavaScript outputs for tab 0, the declaration outputs otherwise. */
  function ChannelStages(r: Results, i: nat): seq<Capture> {
    if i == 0 then r.jsOutputs else r.dtsOutputs
  }

  /** The catalog of file tab `i`. */
  function ChannelNames(r: Results, i: nat): seq<string> {
    if i == 0 then r.jsNames else r.dtsNames
  }

  /**
   * Clicking file tab `i`: its stage tabs replace the old ones and the first
   * stage is hovered, which shows its text; with no captures, what was shown
   * stays.
   */
  method SelectChannel(r: Results, i: nat, shown: Option<Preview>) returns (p: Panel)
    requires i < |FileTabs|
    ensures p.fileTabs == FileTabs && p.activeFile == i
    ensures |p.stageTabs| == |ChannelStages(r, i)|
    ensures forall j :: 0 <= j < |p.stageTabs| ==>
              p.stageTabs[j].caption == Label(ChannelNames(r, i), ChannelStages(r, i)[j])
              && (p.stageTabs[j].disabled <==> !IsActive(ChannelStages(r, i), j))
    ensures ChannelStages(r, i) != [] ==>
              p.activeStage == Some(0) && p.preview == Some(PreviewOf(ChannelStages(r, i)[0]))
    ensures ChannelStages(r, i) == [] ==> p.activeStage == None && p.preview == shown
  {
    var currentStages := if i == 0 then r.jsOutputs else r.dtsOutputs;
    var names := if i == 0 then r.jsNames else r.dtsNames;
    var tabs := BuildStageTabs(names, currentStages);
    if |currentStages| > 0 {
      p := Panel(FileTabs, i, tabs, Some(0), Some(PreviewOf(currentStages[0])));
    } else {
      p := Panel(FileTabs, i, tabs, None, shown);
    }
  }

  /** Rendering the results: the JavaScript tab is clicked, so its stages are the ones shown. */
  method Render(r: Results) returns (p: Panel)
    ensures p.fileTabs == FileTabs && p.activeFile == 0
    ensures |p.stageTabs| == |r.jsOutputs|
    ensures forall j :: 0 <= j < |p.stageTabs| ==>
              p.stageTabs[j].caption == Label(r.jsNames, r.jsOutputs[j])
              && (p.stageTabs[j].disabled <==> !IsActive(r.jsOutputs, j))
    ensures r.jsOutputs != [] ==> p.activeStage == Some(0) && p.preview == Some(PreviewOf(r.jsOutputs[0]))
    ensures r.jsOutputs == [] ==> p.activeStage == None && p.preview == None
  {
    // The code element starts out empty, with no language.
    p := SelectChannel(r, 0, None);
  }

  // ---------------------------------------------------------------------
  // The message listener
  // ---------------------------------------------------------------------

  /** The string-valued fields of a message from the worker, by name. */
  type Fields = map<string, string>

  /** The tag of the worker's reply: its `action` field says "results". */
  const ResultsReply: Fields := map["action" := "results"]

  /** The listener's guard as written: it reads the field `actions`. */
  predicate AcceptsAsWritten(fields: Fields) {
    "actions" in fields && fields["actions"] == "results"
  }

  /** The guard as intended: it reads the field `action` that the worker sets. */
  predicate Accepts(fields: Fields) {
    "action" in fields && fields["action"] == "results"
  }

  /** The guard as written turns away the worker's own reply, so nothing is ever rendered. */
  lemma AsWrittenGuardRejectsResults()
    ensures !AcceptsAsWritten(ResultsReply)
  {
  }

  /** The worker's other message, sent once the compiler is loaded. */
  const ReadyReply: Fields := map["action" := "ready"]

  /** The intended guard lets the results through and turns away the readiness message. */
  lemma GuardAcceptsOnlyResults()
    ensures Accepts(ResultsReply)
    ensures !Accepts(ReadyReply)
  {
  }

  /** The listener: a reply tagged "results" is rendered; any other message leaves the panel alone. */
  method OnMessage(fields: Fields, r: Results) returns (p: Option<Panel>)
    ensures p.Some? <==> Accepts(fields)
    ensures p.Some? ==> p.value.fileTabs == FileTabs && p.value.activeFile == 0
                        && |p.value.stageTabs| == |r.jsOutputs|
  {
    if !("action" in fields && fields["action"] == "results") {
      return None;
    }
    var panel := Render(r);
    p := Some(panel);
  }

  // ---------------------------------------------------------------------
  // Properties of the stage tabs
  // ---------------------------------------------------------------------

  /**
   * Disabling loses no text: every capture's text is shown by an active tab
   * at or before it, and every capture from that tab on has the same text.
   */
  lemma {:induction false} EveryTextHasActiveTab(stages: seq<Capture>, j: nat)
    requires j < |stages|
    ensures exists i :: 0 <= i <= j && IsActive(stages, i)
              && forall m :: i <= m <= j ==> stages[m].text == stages[j].text
  {
    if !IsActive(stages, j) {
      EveryTextHasActiveTab(stages, j - 1);
      var i :| 0 <= i <= j - 1 && IsActive(stages, i)
               && forall m :: i <= m <= j - 1 ==> stages[m].text == stages[j - 1].text;
      assert forall m :: i <= m <= j ==> stages[m].text == stages[j].text;
    } else {
      assert forall m :: j <= m <= j ==> stages[m].text == stages[j].text;
    }
  }

  /** A disabled tab is one whose text repeats the tab before it. */
  lemma DisabledTabRepeatsPrevious(names: seq<string>, stages: seq<Capture>, tabs: seq<Tab>, j: nat)
    requires |tabs| == |stages|
    requires forall i :: 0 <= i < |stages| ==> (tabs[i].disabled <==> !IsActive(stages, i))
    requires j < |tabs| && tabs[j].disabled
    ensures 0 < j && stages[j].text == stages[j - 1].text
  {
  }

  /** A ".js" file is coloured as JavaScript and a ".d.ts" file as TypeScript. */
  lemma LanguageOfSuffix(filename: string)
    ensures EndsWith(filename, ".js") ==> Language(filename) == "javascript"
    ensures EndsWith(filename, ".d.ts") ==> Language(filename) == "typescript"
  {
    var n := |filename|;
    if EndsWith(filename, ".js") {
      assert filename[n - 2..] == filename[n - 3..][1..];
    }
    if EndsWith(filename, ".d.ts") {
      assert filename[n - 2] == filename[n - 5..][3] == 't';
      assert filename[n - 2..][0] == filename[n - 2];
    }
  }

  /** Every script-channel stage is coloured as JavaScript, every declaration stage as TypeScript. */
  lemma ChannelLanguages<T>(all: Transformers<T>, emit: Emitter<T>)
    ensures forall c :: c in FullTrace(Script, all, emit) ==> Language(c.filename) == "javascript"
    ensures forall c :: c in FullTrace(Declaration, all, emit) ==> Language(c.filename) == "typescript"
  {
    TraceCapturesWellFormed(Script, all, emit, |Replayed(Script, all)|);
    TraceCapturesWellFormed(Declaration, all, emit, |Replayed(Declaration, all)|);
    forall c | c in FullTrace(Script, all, emit) ensures Language(c.filename) == "javascript" {
      LanguageOfSuffix(c.filename);
    }
    forall c | c in FullTrace(Declaration, all, emit) ensures Language(c.filename) == "typescript" {
      LanguageOfSuffix(c.filename);
    }
  }

  /**
   * When the compiler's list of a channel is no longer than that channel's
   * catalog, every stage tab of the channel has a label, the catalog name at
   * its capture's index.
   */
  lemma LabelsDefined<T>(ch: Channel, all: Transformers<T>, emit: Emitter<T>, names: seq<string>)
    requires |Replayed(ch, all)| <= |names|
    ensures forall c :: c in FullTrace(ch, all, emit) ==> c.index < |names| && Label(names, c) == Some(names[c.index])
  {
    TraceCapturesWellFormed(ch, all, emit, |Replayed(ch, all)|);
  }

  /**
   * When every iteration writes exactly one file with the channel's suffix,
   * tab `j` is labelled with the `j`-th catalog name, and for `j > 0` it is
   * disabled iff the text emitted with `j + 1` transformers equals the text
   * emitted with `j`.
   */
  lemma TabsFollowEmittedTexts<T>(ch: Channel, all: Transformers<T>, emit: Emitter<T>,
                                  names: seq<string>, j: nat)
    requires |Replayed(ch, all)| <= |names|
    requires forall i :: 0 <= i < |Replayed(ch, all)| ==>
               |Captured(ch, all, emit, i)| == 1
    requires 0 < j < |Replayed(ch, all)|
    ensures |FullTrace(ch, all, emit)| == |Replayed(ch, all)|
    ensures Label(names, FullTrace(ch, all, emit)[j]) == Some(names[j])
    ensures !IsActive(FullTrace(ch, all, emit), j) <==>
              Captured(ch, all, emit, j)[0].text
              == Captured(ch, all, emit, j - 1)[0].text
  {
    var n := |Replayed(ch, all)|;
    OneCapturePerStage(ch, all, emit, n);
    var t := FullTrace(ch, all, emit);
    var cur := Captured(ch, all, emit, j);
    SinkFilters(Suffix(ch), emit(StageTransformers(ch, all, j)), j);
    assert t[j] == cur[0] && cur[0] in cur;
  }
}
