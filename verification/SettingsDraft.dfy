/**
 The settings draft: operation presets, model presets and the active model preset, edited by a language of
 actions. Records hold the fields the integrity rules speak about; edits of any other field are the actions
 EditElsewhere, EditPreset and EditModelPreset.
 */
module SettingsDraft {
  import opened Prelude
  import opened FreshIds

  datatype PresetKind = Summary | Chat | Plan | RepoSearch | RepoAgent | Orchestrator

  datatype Preset = Preset(
    id: string, labelText: string, presetKind: PresetKind, useForSummary: bool, builtin: bool, deletable: bool,
    autoloadFiles: seq<string>, modelPresetId: Option<string>)

  /** `settings` stands for every other field of a model preset. */
  datatype ModelPreset = ModelPreset(id: string, labelText: string, settings: string)

  datatype Config = Config(presets: seq<Preset>, modelPresets: seq<ModelPreset>, activePresetId: string)

  datatype Action =
    | EditElsewhere
    | EditPreset(presetId: string)
    | SetPresetLabel(presetId: string, value: string)
    | SetPresetKind(presetId: string, kind: PresetKind)
    | SetPresetModel(presetId: string, model: Option<string>)
    | SetAutoloadFile(presetId: string, index: int, value: string)
    | AddAutoloadFile(presetId: string)
    | RemoveAutoloadFile(presetId: string, index: int)
    | SetSummaryDefault(presetId: string)
    | AddPreset(presetId: string, labelText: string)
    | DeletePreset(presetId: string)
    | SetActiveModelPreset(presetId: string)
    | EditModelPreset(presetId: string, settings: string)
    | SetModelLabel(presetId: string, value: string)
    | AddModelPreset
    | DeleteModelPreset(presetId: string)

  datatype Error =
    | UnknownPreset(id: string)
    | PresetExists(id: string)
    | NotDeletable(id: string)
    | InvalidAutoloadIndex(index: int, id: string)
    | UnknownModelPreset(id: string)
    | FinalModelPreset
    | ModelPresetAssigned(id: string, labels: seq<string>)
    | NoModelPresets

  /** Broken is an error raised after the draft was changed. */
  datatype Outcome = Applied(config: Config) | Refused(error: Error) | Broken(config: Config, error: Error)

  const BUILTIN_PRESET_IDS: seq<string> := ["summary", "repo-search", "chat", "plan", "repo-agent", "orchestrator"]

  // ---------------------------------------------------------------------------------------------
  // Lookups
  // ---------------------------------------------------------------------------------------------

  function PresetIds(presets: seq<Preset>): (ids: seq<string>)
    ensures |ids| == |presets| && forall i | 0 <= i < |ids| :: ids[i] == presets[i].id
  {
    seq(|presets|, i requires 0 <= i < |presets| => presets[i].id)
  }

  function ModelIds(models: seq<ModelPreset>): (ids: seq<string>)
    ensures |ids| == |models| && forall i | 0 <= i < |ids| :: ids[i] == models[i].id
  {
    seq(|models|, i requires 0 <= i < |models| => models[i].id)
  }

  /** The index of the first occurrence. */
  function Find(ids: seq<string>, id: string): (index: Option<nat>)
    ensures index.None? <==> id !in ids
    ensures index.Some? ==> index.value < |ids| && ids[index.value] == id
    ensures index.Some? ==> forall i | 0 <= i < index.value :: ids[i] != id
  {
    if ids == [] then None
    else if ids[0] == id then Some(0)
    else
      var rest := Find(ids[1..], id);
      if rest.None? then None else Some(rest.value + 1)
  }

  function FindPreset(c: Config, id: string): (index: Option<nat>)
    ensures index.Some? ==> index.value < |c.presets| && c.presets[index.value].id == id
  {
    Find(PresetIds(c.presets), id)
  }

  function FindModel(c: Config, id: string): (index: Option<nat>)
    ensures index.Some? ==> index.value < |c.modelPresets| && c.modelPresets[index.value].id == id
  {
    Find(ModelIds(c.modelPresets), id)
  }

  function WithoutPreset(presets: seq<Preset>, id: string): (rest: seq<Preset>)
    ensures forall p :: p in rest <==> p in presets && p.id != id
  {
    if presets == [] then []
    else WithoutPreset(presets[..|presets| - 1], id) +
         if presets[|presets| - 1].id == id then [] else [presets[|presets| - 1]]
  }

  function WithoutModel(models: seq<ModelPreset>, id: string): (rest: seq<ModelPreset>)
    ensures forall m :: m in rest <==> m in models && m.id != id
  {
    if models == [] then []
    else WithoutModel(models[..|models| - 1], id) +
         if models[|models| - 1].id == id then [] else [models[|models| - 1]]
  }

  /** The labels of the operation presets routed to a model preset. */
  function Assignments(presets: seq<Preset>, modelId: string): (labels: seq<string>)
    ensures labels == [] <==> forall i | 0 <= i < |presets| :: presets[i].modelPresetId != Some(modelId)
  {
    if presets == [] then []
    else Assignments(presets[..|presets| - 1], modelId) +
         if presets[|presets| - 1].modelPresetId == Some(modelId) then [presets[|presets| - 1].labelText] else []
  }

  function OnlyDefault(presets: seq<Preset>, id: string): (marked: seq<Preset>)
    ensures |marked| == |presets|
    ensures forall i | 0 <= i < |presets| :: marked[i] == presets[i].(useForSummary := presets[i].id == id)
  {
    seq(|presets|, i requires 0 <= i < |presets| => presets[i].(useForSummary := presets[i].id == id))
  }

  // ---------------------------------------------------------------------------------------------
  // The action language
  // ---------------------------------------------------------------------------------------------

  type Slugger = string -> string

  function BaseId(slug: Slugger, labelText: string): string {
    if slug(labelText) == "" then "preset" else slug(labelText)
  }

  function WithPreset(c: Config, i: nat, p: Preset): Config
    requires i < |c.presets|
  {
    c.(presets := c.presets[i := p])
  }

  function NewPreset(id: string, labelText: string): Preset {
    Preset(id, labelText, Summary, false, false, true, [], None)
  }

  function ActiveModel(c: Config): (index: nat)
    requires c.modelPresets != []
    ensures index < |c.modelPresets|
  {
    var found := FindModel(c, c.activePresetId);
    if found.Some? then found.value else 0
  }

  function AppliedAddModelPreset(c: Config, slug: Slugger): Outcome {
    if c.modelPresets == [] then Refused(NoModelPresets)
    else
      var active := c.modelPresets[ActiveModel(c)];
      var id := UniqueId(ModelIds(c.modelPresets), BaseId(slug, active.labelText));
      Applied(c.(modelPresets := c.modelPresets + [active.(id := id)], activePresetId := id))
  }

  function AppliedDeleteModelPreset(c: Config, id: string): Outcome {
    if FindModel(c, id).None? then Refused(UnknownModelPreset(id))
    else if |c.modelPresets| <= 1 then Refused(FinalModelPreset)
    else if Assignments(c.presets, id) != [] then Refused(ModelPresetAssigned(id, Assignments(c.presets, id)))
    else
      var remaining := c.(modelPresets := WithoutModel(c.modelPresets, id));
      if remaining.modelPresets == [] then Broken(remaining, NoModelPresets)
      else Applied(remaining.(activePresetId := remaining.modelPresets[ActiveModel(remaining)].id))
  }

  /** Actions on one operation preset, once it has been found. */
  function ApplyToPreset(c: Config, i: nat, a: Action): Outcome
    requires i < |c.presets|
  {
    var p := c.presets[i];
    match a
    case SetPresetLabel(_, value) => Applied(WithPreset(c, i, p.(labelText := value)))
    case SetPresetKind(_, kind) => Applied(WithPreset(c, i, p.(presetKind := kind)))
    case SetPresetModel(_, model) =>
      if model.Some? && FindModel(c, model.value).None? then Refused(UnknownModelPreset(model.value))
      else Applied(WithPreset(c, i, p.(modelPresetId := model)))
    case SetAutoloadFile(_, k, value) =>
      if !(0 <= k < |p.autoloadFiles|) then Refused(InvalidAutoloadIndex(k, p.id))
      else Applied(WithPreset(c, i, p.(autoloadFiles := p.autoloadFiles[k := value])))
    case AddAutoloadFile(_) => Applied(WithPreset(c, i, p.(autoloadFiles := p.autoloadFiles + [""])))
    case RemoveAutoloadFile(_, k) =>
      if !(0 <= k < |p.autoloadFiles|) then Refused(InvalidAutoloadIndex(k, p.id))
      else Applied(WithPreset(c, i, p.(autoloadFiles := p.autoloadFiles[..k] + p.autoloadFiles[k + 1..])))
    case SetSummaryDefault(id) => Applied(c.(presets := OnlyDefault(c.presets, id)))
    case DeletePreset(id) =>
      if !p.deletable then Refused(NotDeletable(id)) else Applied(c.(presets := WithoutPreset(c.presets, id)))
    case _ => Applied(c)
  }

  /** The preset an action must find first, if any. */
  function TargetPreset(a: Action): Option<string> {
    match a
    case EditPreset(id) => Some(id)
    case SetPresetLabel(id, _) => Some(id)
    case SetPresetKind(id, _) => Some(id)
    case SetPresetModel(id, _) => Some(id)
    case SetAutoloadFile(id, _, _) => Some(id)
    case AddAutoloadFile(id) => Some(id)
    case RemoveAutoloadFile(id, _) => Some(id)
    case SetSummaryDefault(id) => Some(id)
    case DeletePreset(id) => Some(id)
    case _ => None
  }

  function Apply(c: Config, a: Action, slug: Slugger): Outcome {
    if TargetPreset(a).Some? then
      var i := FindPreset(c, TargetPreset(a).value);
      if i.None? then Refused(UnknownPreset(TargetPreset(a).value)) else ApplyToPreset(c, i.value, a)
    else
      match a
      case AddPreset(id, labelText) =>
        if FindPreset(c, id).Some? then Refused(PresetExists(id))
        else Applied(c.(presets := c.presets + [NewPreset(id, labelText)]))
      case SetActiveModelPreset(id) =>
        if FindModel(c, id).None? then Refused(UnknownModelPreset(id)) else Applied(c.(activePresetId := id))
      case EditModelPreset(id, settings) =>
        var i := FindModel(c, id);
        if i.None? then Refused(UnknownModelPreset(id))
        else Applied(c.(modelPresets := c.modelPresets[i.value := c.modelPresets[i.value].(settings := settings)]))
      case SetModelLabel(id, value) =>
        var i := FindModel(c, id);
        if i.None? then Refused(UnknownModelPreset(id))
        else Applied(c.(modelPresets := c.modelPresets[i.value := c.modelPresets[i.value].(labelText := value)]))
      case AddModelPreset => AppliedAddModelPreset(c, slug)
      case DeleteModelPreset(id) => AppliedDeleteModelPreset(c, id)
      case _ => Applied(c)
  }

  // ---------------------------------------------------------------------------------------------
  // What each action changes, and when it is refused
  // ---------------------------------------------------------------------------------------------

  /** Actions that change fields of the preset they name and nothing else. */
  predicate EditsFields(a: Action) {
    || a.EditPreset? || a.SetPresetLabel? || a.SetPresetKind? || a.SetPresetModel?
    || a.SetAutoloadFile? || a.AddAutoloadFile? || a.RemoveAutoloadFile?
  }

  predicate UsesAutoloadIndex(a: Action) {
    a.SetAutoloadFile? || a.RemoveAutoloadFile?
  }

  /** `after` is `before` with the action's value in the action's field. */
  predicate FieldsEdited(a: Action, before: Preset, after: Preset)
    requires UsesAutoloadIndex(a) ==> 0 <= a.index < |before.autoloadFiles|
  {
    && after.id == before.id && after.useForSummary == before.useForSummary
    && after.builtin == before.builtin && after.deletable == before.deletable
    && after.labelText == (if a.SetPresetLabel? then a.value else before.labelText)
    && after.presetKind == (if a.SetPresetKind? then a.kind else before.presetKind)
    && after.modelPresetId == (if a.SetPresetModel? then a.model else before.modelPresetId)
    && var files, edited := before.autoloadFiles, after.autoloadFiles;
    if a.AddAutoloadFile? then |edited| == |files| + 1 && edited[..|files|] == files && edited[|files|] == ""
    else if a.RemoveAutoloadFile? then
      && |edited| == |files| - 1
      && (forall j | 0 <= j < a.index :: edited[j] == files[j])
      && (forall j | a.index <= j < |edited| :: edited[j] == files[j + 1])
    else
      && |edited| == |files|
      && (forall j | 0 <= j < |files| :: edited[j] == if a.SetAutoloadFile? && j == a.index then a.value else files[j])
  }

  /** When an edit of one preset is refused. */
  predicate EditRefused(c: Config, a: Action)
    requires TargetPreset(a).Some?
  {
    var id := TargetPreset(a).value;
    || id !in PresetIds(c.presets)
    || (a.SetPresetModel? && a.model.Some? && a.model.value !in ModelIds(c.modelPresets))
    || (UsesAutoloadIndex(a) && FindPreset(c, id).Some? &&
        !(0 <= a.index < |c.presets[FindPreset(c, id).value].autoloadFiles|))
  }

  predicate OnlyPresetsChanged(c: Config, after: Config) {
    after.modelPresets == c.modelPresets && after.activePresetId == c.activePresetId
  }

  lemma {:induction false} FieldEditRefused(c: Config, a: Action, slug: Slugger)
    requires EditsFields(a)
    ensures Apply(c, a, slug).Refused? <==> EditRefused(c, a)
    ensures Apply(c, a, slug).Refused? || Apply(c, a, slug).Applied?
  {
  }

  /** An edit of one preset's fields changes just those, in the first preset of that id, or is refused. */
  lemma {:induction false} FieldEditDoes(c: Config, a: Action, slug: Slugger)
    requires EditsFields(a)
    ensures Apply(c, a, slug).Refused? <==> EditRefused(c, a)
    ensures !EditRefused(c, a) ==>
              var i := FindPreset(c, TargetPreset(a).value).value;
              var after := Next(c, a, slug);
              && OnlyPresetsChanged(c, after)
              && |after.presets| == |c.presets|
              && (forall k | 0 <= k < |c.presets| && k != i :: after.presets[k] == c.presets[k])
              && FieldsEdited(a, c.presets[i], after.presets[i])
  {
    FieldEditRefused(c, a, slug);
  }

  lemma {:induction false} Spliced<T>(s: seq<T>, i: nat)
    requires i < |s| - 1
    ensures var front := s[..|s| - 1];
            front[..i] + front[i + 1..] + [s[|s| - 1]] == s[..i] + s[i + 1..]
  {
  }

  /** With distinct ids, the presets of other ids are all but the one, in order. */
  lemma {:induction false} WithoutOne(presets: seq<Preset>, i: nat)
    requires i < |presets| && Distinct(PresetIds(presets))
    ensures WithoutPreset(presets, presets[i].id) == presets[..i] + presets[i + 1..]
  {
    var front, last := presets[..|presets| - 1], presets[|presets| - 1];
    var ids := PresetIds(presets);
    assert PresetIds(front) == ids[..|front|] && ids[|front|] == last.id && ids[i] == presets[i].id;
    if i == |front| {
      WithoutAbsent(front, last.id);
      assert presets[..i] + presets[i + 1..] == front;
    } else {
      WithoutOne(front, i);
      Spliced(presets, i);
    }
  }

  lemma {:induction false} WithoutOneModel(models: seq<ModelPreset>, i: nat)
    requires i < |models| && Distinct(ModelIds(models))
    ensures WithoutModel(models, models[i].id) == models[..i] + models[i + 1..]
  {
    var front, last := models[..|models| - 1], models[|models| - 1];
    var ids := ModelIds(models);
    assert ModelIds(front) == ids[..|front|] && ids[|front|] == last.id && ids[i] == models[i].id;
    if i == |front| {
      WithoutAbsentModel(front, last.id);
      assert models[..i] + models[i + 1..] == front;
    } else {
      WithoutOneModel(front, i);
      Spliced(models, i);
    }
  }

  /** Marking the default is refused for an unknown id, and otherwise marks every preset by its id. */
  lemma {:induction false} DefaultMoveDoes(c: Config, id: string, slug: Slugger)
    ensures var outcome, after := Apply(c, SetSummaryDefault(id), slug), Next(c, SetSummaryDefault(id), slug);
            && OnlyPresetsChanged(c, after)
            && (outcome.Refused? <==> id !in PresetIds(c.presets))
            && (outcome.Applied? ==>
                  && |after.presets| == |c.presets|
                  && forall k | 0 <= k < |c.presets| ::
                       after.presets[k] == c.presets[k].(useForSummary := c.presets[k].id == id))
  {
  }

  /** Adding is refused for an id in use, and otherwise appends an unrouted custom summary preset. */
  lemma {:induction false} PresetAddDoes(c: Config, id: string, labelText: string, slug: Slugger)
    ensures var outcome, after := Apply(c, AddPreset(id, labelText), slug), Next(c, AddPreset(id, labelText), slug);
            && OnlyPresetsChanged(c, after)
            && (outcome.Refused? <==> id in PresetIds(c.presets))
            && (outcome.Applied? ==>
                  && |after.presets| == |c.presets| + 1 && after.presets[..|c.presets|] == c.presets
                  && var p := after.presets[|c.presets|];
                  && p.id == id && p.labelText == labelText && p.presetKind.Summary?
                  && !p.useForSummary && !p.builtin && p.deletable && p.autoloadFiles == [] && p.modelPresetId.None?)
  {
  }

  /** Deleting is refused for an unknown or undeletable preset, and otherwise leaves the presets of other ids. */
  lemma {:induction false} PresetDeleteDoes(c: Config, id: string, slug: Slugger)
    ensures var outcome, after := Apply(c, DeletePreset(id), slug), Next(c, DeletePreset(id), slug);
            && OnlyPresetsChanged(c, after)
            && (outcome.Refused? <==>
                  id !in PresetIds(c.presets) || !c.presets[FindPreset(c, id).value].deletable)
            && (outcome.Applied? ==> after.presets == WithoutPreset(c.presets, id))
  {
  }

  /** The actions on model presets that add and delete none. */
  lemma {:induction false} ModelEditDoes(c: Config, a: Action, slug: Slugger)
    requires a.SetActiveModelPreset? || a.EditModelPreset? || a.SetModelLabel?
    ensures var after := Next(c, a, slug);
            && after.presets == c.presets
            && (Apply(c, a, slug).Refused? <==> a.presetId !in ModelIds(c.modelPresets))
            && (Apply(c, a, slug).Refused? ==> Apply(c, a, slug).error == UnknownModelPreset(a.presetId))
            && (Apply(c, a, slug).Applied? ==>
                  var i := FindModel(c, a.presetId).value;
                  && after.activePresetId == (if a.SetActiveModelPreset? then a.presetId else c.activePresetId)
                  && |after.modelPresets| == |c.modelPresets|
                  && (forall k | 0 <= k < |c.modelPresets| && k != i :: after.modelPresets[k] == c.modelPresets[k])
                  && after.modelPresets[i].id == c.modelPresets[i].id
                  && after.modelPresets[i].labelText
                       == (if a.SetModelLabel? then a.value else c.modelPresets[i].labelText)
                  && after.modelPresets[i].settings
                       == (if a.EditModelPreset? then a.settings else c.modelPresets[i].settings))
  {
  }

  /** Adding copies the active model preset, the first one if the active id is stale, under a new active id. */
  lemma {:induction false} ModelAddDoes(c: Config, slug: Slugger)
    ensures var after := Next(c, AddModelPreset, slug);
            && (Apply(c, AddModelPreset, slug).Refused? <==> c.modelPresets == [])
            && after.presets == c.presets
            && (c.modelPresets != [] ==>
                  var n := |c.modelPresets|;
                  var source := c.modelPresets[if FindModel(c, c.activePresetId).Some?
                                               then FindModel(c, c.activePresetId).value else 0];
                  && |after.modelPresets| == n + 1 && after.modelPresets[..n] == c.modelPresets
                  && after.activePresetId == after.modelPresets[n].id
                  && after.activePresetId !in ModelIds(c.modelPresets)
                  && after.modelPresets[n].labelText == source.labelText
                  && after.modelPresets[n].settings == source.settings)
  {
  }

  /**
   Deleting a model preset is refused for an unknown id, then for the only one, then for one that operation presets
   are routed to, in this order, and for nothing else.
   */
  lemma {:induction false} ModelDeleteRefused(c: Config, id: string)
    requires Distinct(ModelIds(c.modelPresets))
    ensures var outcome := AppliedDeleteModelPreset(c, id);
            && (outcome == Refused(UnknownModelPreset(id)) <==> id !in ModelIds(c.modelPresets))
            && (outcome == Refused(FinalModelPreset) <==> id in ModelIds(c.modelPresets) && |c.modelPresets| <= 1)
            && (outcome == Refused(ModelPresetAssigned(id, Assignments(c.presets, id))) <==>
                  && id in ModelIds(c.modelPresets) && |c.modelPresets| > 1
                  && exists k :: 0 <= k < |c.presets| && c.presets[k].modelPresetId == Some(id))
            && (outcome.Applied? <==>
                  && id in ModelIds(c.modelPresets) && |c.modelPresets| > 1
                  && forall k | 0 <= k < |c.presets| :: c.presets[k].modelPresetId != Some(id))
  {
    if id in ModelIds(c.modelPresets) && |c.modelPresets| > 1 {
      OneRemains(c.modelPresets, id);
    }
  }

  lemma {:induction false} OneRemains(models: seq<ModelPreset>, id: string)
    requires Distinct(ModelIds(models)) && |models| > 1
    ensures WithoutModel(models, id) != []
  {
    assert ModelIds(models)[0] != ModelIds(models)[1];
    assert models[0] in models && models[1] in models;
    var other := if models[0].id == id then models[1] else models[0];
    assert other in WithoutModel(models, id);
  }

  /** A deletion that is not refused takes out just the one model preset. */
  lemma {:induction false} ModelDeleteDoes(c: Config, id: string)
    requires Distinct(ModelIds(c.modelPresets))
    ensures AppliedDeleteModelPreset(c, id).Applied? ==>
              var i, after := FindModel(c, id).value, AppliedDeleteModelPreset(c, id).config;
              && after.presets == c.presets
              && after.modelPresets == c.modelPresets[..i] + c.modelPresets[i + 1..]
  {
    if FindModel(c, id).Some? {
      WithoutOneModel(c.modelPresets, FindModel(c, id).value);
    }
  }

  /** The labels an error names are those of the presets routed to the model preset, each once and in order. */
  lemma {:induction false} AssignmentsAre(presets: seq<Preset>, p: Preset, id: string)
    ensures Assignments([], id) == []
    ensures Assignments(presets + [p], id)
         == if p.modelPresetId == Some(id) then Assignments(presets, id) + [p.labelText] else Assignments(presets, id)
  {
    assert (presets + [p])[..|presets|] == presets;
  }

  // ---------------------------------------------------------------------------------------------
  // Integrity
  // ---------------------------------------------------------------------------------------------

  predicate Distinct(ids: seq<string>) {
    forall i, j | 0 <= i < j < |ids| :: ids[i] != ids[j]
  }

  /** The checks a preset catalog makes before it accepts a list. */
  predicate CatalogAccepts(presets: seq<Preset>) {
    && (forall b | b in BUILTIN_PRESET_IDS ::
          var i := Find(PresetIds(presets), b);
          i.Some? && presets[i.value].builtin && !presets[i.value].deletable)
    && (forall p | p in presets && p.id !in BUILTIN_PRESET_IDS :: !p.builtin && p.deletable)
  }

  ghost predicate HasBuiltin(presets: seq<Preset>, b: string) {
    exists p :: p in presets && p.id == b && p.builtin && !p.deletable
  }

  /** The same checks without an order of lookup. */
  ghost predicate CatalogMembers(presets: seq<Preset>) {
    && (forall b | b in BUILTIN_PRESET_IDS :: HasBuiltin(presets, b))
    && (forall p | p in presets && p.id !in BUILTIN_PRESET_IDS :: !p.builtin && p.deletable)
  }

  ghost predicate AtMostOneDefault(presets: seq<Preset>) {
    forall p, q | p in presets && q in presets && p.useForSummary && q.useForSummary :: p == q
  }

  ghost predicate Valid(c: Config) {
    && Distinct(PresetIds(c.presets))
    && Distinct(ModelIds(c.modelPresets))
    && c.modelPresets != []
    && c.activePresetId in ModelIds(c.modelPresets)
    && (forall p | p in c.presets && p.modelPresetId.Some? :: p.modelPresetId.value in ModelIds(c.modelPresets))
    && AtMostOneDefault(c.presets)
    && CatalogMembers(c.presets)
  }

  lemma {:induction false} CatalogAcceptsMembers(presets: seq<Preset>)
    requires Distinct(PresetIds(presets))
    ensures CatalogAccepts(presets) <==> CatalogMembers(presets)
  {
    forall b | b in BUILTIN_PRESET_IDS
      ensures HasBuiltin(presets, b) <==>
              var i := Find(PresetIds(presets), b);
              i.Some? && presets[i.value].builtin && !presets[i.value].deletable
    {
      var i := Find(PresetIds(presets), b);
      if i.Some? && presets[i.value].builtin && !presets[i.value].deletable {
        assert presets[i.value] in presets;
      }
      if HasBuiltin(presets, b) {
        var p :| p in presets && p.id == b && p.builtin && !p.deletable;
        var k :| 0 <= k < |presets| && presets[k] == p;
        assert PresetIds(presets)[k] == b;
      }
    }
  }

  lemma {:induction false} SameIdSamePreset(presets: seq<Preset>, p: Preset, q: Preset)
    requires Distinct(PresetIds(presets)) && p in presets && q in presets && p.id == q.id
    ensures p == q
  {
    var i :| 0 <= i < |presets| && presets[i] == p;
    var j :| 0 <= j < |presets| && presets[j] == q;
    assert PresetIds(presets)[i] == PresetIds(presets)[j];
  }

  predicate SameFlags(p: Preset, q: Preset) {
    p.id == q.id && p.builtin == q.builtin && p.deletable == q.deletable && p.useForSummary == q.useForSummary
  }

  lemma {:induction false} ReplacedMember(presets: seq<Preset>, i: nat, p: Preset, q: Preset) returns (was: Preset)
    requires i < |presets| && SameFlags(p, presets[i]) && q in presets[i := p]
    ensures was in presets && SameFlags(q, was) && (q == p || q == was)
  {
    var k :| 0 <= k < |presets| && presets[i := p][k] == q;
    was := presets[k];
  }

  lemma {:induction false} ReplacedCatalog(presets: seq<Preset>, i: nat, p: Preset)
    requires i < |presets| && SameFlags(p, presets[i]) && CatalogMembers(presets)
    ensures CatalogMembers(presets[i := p])
  {
    forall b | b in BUILTIN_PRESET_IDS
      ensures HasBuiltin(presets[i := p], b)
    {
      var q :| q in presets && q.id == b && q.builtin && !q.deletable;
      var k :| 0 <= k < |presets| && presets[k] == q;
      assert presets[i := p][k] in presets[i := p];
    }
    forall q | q in presets[i := p] && q.id !in BUILTIN_PRESET_IDS
      ensures !q.builtin && q.deletable
    {
      var was := ReplacedMember(presets, i, p, q);
    }
  }

  lemma {:induction false} ReplacedDefaults(presets: seq<Preset>, i: nat, p: Preset)
    requires i < |presets| && SameFlags(p, presets[i]) && AtMostOneDefault(presets) && Distinct(PresetIds(presets))
    ensures Distinct(PresetIds(presets[i := p])) && AtMostOneDefault(presets[i := p])
  {
    assert PresetIds(presets[i := p]) == PresetIds(presets);
    forall q, r | q in presets[i := p] && r in presets[i := p] && q.useForSummary && r.useForSummary
      ensures q == r
    {
      var wasQ := ReplacedMember(presets, i, p, q);
      var wasR := ReplacedMember(presets, i, p, r);
      SameIdSamePreset(presets[i := p], q, r);
    }
  }

  /** One preset replaced, its id and flags kept. */
  lemma {:induction false} PresetReplaced(c: Config, i: nat, p: Preset)
    requires Valid(c) && i < |c.presets| && SameFlags(p, c.presets[i])
    requires p.modelPresetId.Some? ==> p.modelPresetId.value in ModelIds(c.modelPresets)
    ensures Valid(WithPreset(c, i, p))
  {
    ReplacedCatalog(c.presets, i, p);
    ReplacedDefaults(c.presets, i, p);
    forall q | q in c.presets[i := p] && q.modelPresetId.Some?
      ensures q.modelPresetId.value in ModelIds(c.modelPresets)
    {
      var was := ReplacedMember(c.presets, i, p, q);
    }
  }

  lemma {:induction false} DefaultMoved(c: Config, id: string)
    requires Valid(c)
    ensures Valid(c.(presets := OnlyDefault(c.presets, id)))
  {
    var marked := OnlyDefault(c.presets, id);
    assert PresetIds(marked) == PresetIds(c.presets);
    forall p | p in marked
      ensures exists q :: q in c.presets && p == q.(useForSummary := q.id == id)
    {
      var k :| 0 <= k < |marked| && marked[k] == p;
      assert c.presets[k] in c.presets;
    }
    forall p, q | p in marked && q in marked && p.useForSummary && q.useForSummary
      ensures p == q
    {
      SameIdSamePreset(marked, p, q);
    }
    forall b | b in BUILTIN_PRESET_IDS
      ensures HasBuiltin(marked, b)
    {
      var q :| q in c.presets && q.id == b && q.builtin && !q.deletable;
      var k :| 0 <= k < |c.presets| && c.presets[k] == q;
      assert marked[k] in marked;
    }
  }

  lemma {:induction false} BuiltinsPresent(presets: seq<Preset>)
    requires CatalogMembers(presets)
    ensures forall b | b in BUILTIN_PRESET_IDS :: b in PresetIds(presets)
  {
    forall b | b in BUILTIN_PRESET_IDS
      ensures b in PresetIds(presets)
    {
      var q :| q in presets && q.id == b && q.builtin && !q.deletable;
      var k :| 0 <= k < |presets| && presets[k] == q;
      assert PresetIds(presets)[k] == b;
    }
  }

  lemma {:induction false} DeletableIsNotBuiltin(presets: seq<Preset>, p: Preset)
    requires Distinct(PresetIds(presets)) && CatalogMembers(presets) && p in presets && p.deletable
    ensures p.id !in BUILTIN_PRESET_IDS
  {
    forall b | b in BUILTIN_PRESET_IDS
      ensures b != p.id
    {
      var q :| q in presets && q.id == b && q.builtin && !q.deletable;
      if q.id == p.id {
        SameIdSamePreset(presets, p, q);
      }
    }
  }

  lemma {:induction false} PresetAdded(c: Config, id: string, labelText: string)
    requires Valid(c) && id !in PresetIds(c.presets)
    ensures Valid(c.(presets := c.presets + [NewPreset(id, labelText)]))
  {
    var added := NewPreset(id, labelText);
    var presets := c.presets + [added];
    assert PresetIds(presets) == PresetIds(c.presets) + [id];
    BuiltinsPresent(c.presets);
    forall b | b in BUILTIN_PRESET_IDS
      ensures HasBuiltin(presets, b)
    {
      var q :| q in c.presets && q.id == b && q.builtin && !q.deletable;
      assert q in presets;
    }
  }

  function Without(ids: seq<string>, id: string): (rest: seq<string>)
    ensures forall x :: x in rest <==> x in ids && x != id
  {
    if ids == [] then []
    else Without(ids[..|ids| - 1], id) + if ids[|ids| - 1] == id then [] else [ids[|ids| - 1]]
  }

  lemma {:induction false} WithoutDistinct(ids: seq<string>, id: string)
    requires Distinct(ids)
    ensures Distinct(Without(ids, id))
  {
    if ids != [] {
      var front := ids[..|ids| - 1];
      WithoutDistinct(front, id);
      assert forall i | 0 <= i < |Without(front, id)| :: Without(front, id)[i] in front;
    }
  }

  lemma {:induction false} PresetIdsWithout(presets: seq<Preset>, id: string)
    ensures PresetIds(WithoutPreset(presets, id)) == Without(PresetIds(presets), id)
  {
    if presets != [] {
      var front := presets[..|presets| - 1];
      assert PresetIds(presets)[..|front|] == PresetIds(front);
      PresetIdsWithout(front, id);
    }
  }

  lemma {:induction false} ModelIdsWithout(models: seq<ModelPreset>, id: string)
    ensures ModelIds(WithoutModel(models, id)) == Without(ModelIds(models), id)
  {
    if models != [] {
      var front := models[..|models| - 1];
      assert ModelIds(models)[..|front|] == ModelIds(front);
      ModelIdsWithout(front, id);
    }
  }

  lemma {:induction false} PresetDeleted(c: Config, id: string)
    requires Valid(c) && id !in BUILTIN_PRESET_IDS
    ensures Valid(c.(presets := WithoutPreset(c.presets, id)))
  {
    PresetIdsWithout(c.presets, id);
    WithoutDistinct(PresetIds(c.presets), id);
    forall b | b in BUILTIN_PRESET_IDS
      ensures HasBuiltin(WithoutPreset(c.presets, id), b)
    {
      var q :| q in c.presets && q.id == b && q.builtin && !q.deletable;
      assert q in WithoutPreset(c.presets, id);
    }
  }

  lemma {:induction false} ModelReplaced(c: Config, i: nat, m: ModelPreset)
    requires Valid(c) && i < |c.modelPresets| && m.id == c.modelPresets[i].id
    ensures Valid(c.(modelPresets := c.modelPresets[i := m]))
  {
    assert ModelIds(c.modelPresets[i := m]) == ModelIds(c.modelPresets);
  }

  lemma {:induction false} ModelAdded(c: Config, slug: Slugger)
    requires Valid(c)
    ensures AppliedAddModelPreset(c, slug).Applied? && Valid(AppliedAddModelPreset(c, slug).config)
  {
    var after := AppliedAddModelPreset(c, slug).config;
    assert ModelIds(after.modelPresets) == ModelIds(c.modelPresets) + [after.activePresetId];
  }

  /** An error changes the draft only when the deleted id is the id of every model preset. */
  lemma {:induction false} BrokenIff(c: Config, a: Action, slug: Slugger)
    ensures Apply(c, a, slug).Broken? <==>
            && a.DeleteModelPreset?
            && |c.modelPresets| > 1
            && (forall m | m in c.modelPresets :: m.id == a.presetId)
            && Assignments(c.presets, a.presetId) == []
  {
    if a.DeleteModelPreset? && |c.modelPresets| > 1 {
      var remaining := WithoutModel(c.modelPresets, a.presetId);
      assert remaining != [] ==> remaining[0] in c.modelPresets && remaining[0].id != a.presetId;
      assert ModelIds(c.modelPresets)[0] == c.modelPresets[0].id;
      if remaining == [] {
        forall m | m in c.modelPresets
          ensures m.id == a.presetId
        {
          assert m !in remaining;
        }
      }
    }
  }

  /** With distinct model preset ids, which the schema enforces, an error never leaves the draft changed. */
  lemma {:induction false} DistinctIdsNeverBreak(c: Config, a: Action, slug: Slugger)
    requires Distinct(ModelIds(c.modelPresets))
    ensures !Apply(c, a, slug).Broken?
  {
    BrokenIff(c, a, slug);
    if |c.modelPresets| > 1 {
      assert ModelIds(c.modelPresets)[0] != ModelIds(c.modelPresets)[1];
    }
  }

  lemma {:induction false} ModelDeleted(c: Config, id: string)
    requires Valid(c)
    ensures AppliedDeleteModelPreset(c, id).Applied? ==> Valid(AppliedDeleteModelPreset(c, id).config)
  {
    if AppliedDeleteModelPreset(c, id).Applied? {
      DeletedModelValid(c, id);
    }
  }

  lemma {:induction false} RoutesStay(c: Config, id: string)
    requires Valid(c) && Assignments(c.presets, id) == []
    ensures forall p | p in c.presets && p.modelPresetId.Some? ::
              p.modelPresetId.value in ModelIds(WithoutModel(c.modelPresets, id))
  {
    ModelIdsWithout(c.modelPresets, id);
    forall p | p in c.presets && p.modelPresetId.Some?
      ensures p.modelPresetId.value in ModelIds(WithoutModel(c.modelPresets, id))
    {
      var k :| 0 <= k < |c.presets| && c.presets[k] == p;
      assert c.presets[k].modelPresetId != Some(id);
    }
  }

  lemma {:induction false} RepairedActive(c: Config)
    requires c.modelPresets != []
    ensures c.modelPresets[ActiveModel(c)].id in ModelIds(c.modelPresets)
  {
    assert ModelIds(c.modelPresets)[ActiveModel(c)] == c.modelPresets[ActiveModel(c)].id;
  }

  lemma {:induction false} DeletedModelValid(c: Config, id: string)
    requires Valid(c) && AppliedDeleteModelPreset(c, id).Applied?
    ensures Valid(AppliedDeleteModelPreset(c, id).config)
  {
    ModelIdsWithout(c.modelPresets, id);
    WithoutDistinct(ModelIds(c.modelPresets), id);
    RoutesStay(c, id);
    RepairedActive(c.(modelPresets := WithoutModel(c.modelPresets, id)));
  }

  lemma {:induction false} PresetActionKeepsValid(c: Config, i: nat, a: Action)
    requires Valid(c) && TargetPreset(a).Some? && FindPreset(c, TargetPreset(a).value) == Some(i)
    ensures ApplyToPreset(c, i, a).Applied? ==> Valid(ApplyToPreset(c, i, a).config)
  {
    var p := c.presets[i];
    assert p in c.presets;
    if ApplyToPreset(c, i, a).Applied? {
      if a.SetSummaryDefault? {
        DefaultMoved(c, a.presetId);
      } else if a.DeletePreset? {
        DeletableIsNotBuiltin(c.presets, p);
        PresetDeleted(c, a.presetId);
      } else if !a.EditPreset? {
        PresetReplaced(c, i, ApplyToPreset(c, i, a).config.presets[i]);
      }
    }
  }

  /** Every action is refused or keeps every integrity rule. */
  lemma {:induction false} ApplyKeepsValid(c: Config, a: Action, slug: Slugger)
    requires Valid(c)
    ensures !Apply(c, a, slug).Broken?
    ensures Apply(c, a, slug).Applied? ==> Valid(Apply(c, a, slug).config)
  {
    DistinctIdsNeverBreak(c, a, slug);
    if TargetPreset(a).Some? {
      var i := FindPreset(c, TargetPreset(a).value);
      if i.Some? {
        PresetActionKeepsValid(c, i.value, a);
      }
    } else if Apply(c, a, slug).Applied? {
      match a
      case AddPreset(id, labelText) => PresetAdded(c, id, labelText);
      case EditModelPreset(id, settings) =>
        var i := FindModel(c, id).value;
        ModelReplaced(c, i, c.modelPresets[i].(settings := settings));
      case SetModelLabel(id, value) =>
        var i := FindModel(c, id).value;
        ModelReplaced(c, i, c.modelPresets[i].(labelText := value));
      case AddModelPreset => ModelAdded(c, slug);
      case DeleteModelPreset(id) => ModelDeleted(c, id);
      case _ =>
    }
  }

  /** The draft after an action; a refused action leaves it as it was. */
  function Next(c: Config, a: Action, slug: Slugger): Config {
    var outcome := Apply(c, a, slug);
    if outcome.Refused? then c else outcome.config
  }

  function ApplyAll(c: Config, actions: seq<Action>, slug: Slugger): Config {
    if actions == [] then c
    else Next(ApplyAll(c, actions[..|actions| - 1], slug), actions[|actions| - 1], slug)
  }

  /** Over any sequence of actions: unique ids, an existing active preset, no dangling reference, at least one
      model preset, at most one summary default, and a list the catalog accepts. */
  lemma {:induction false} IntegrityOverAnySequence(c: Config, actions: seq<Action>, slug: Slugger)
    requires Valid(c)
    ensures Valid(ApplyAll(c, actions, slug))
    ensures CatalogAccepts(ApplyAll(c, actions, slug).presets)
  {
    if actions != [] {
      var before := ApplyAll(c, actions[..|actions| - 1], slug);
      IntegrityOverAnySequence(c, actions[..|actions| - 1], slug);
      ApplyKeepsValid(before, actions[|actions| - 1], slug);
    }
    CatalogAcceptsMembers(ApplyAll(c, actions, slug).presets);
  }

  // ---------------------------------------------------------------------------------------------
  // The summary default
  // ---------------------------------------------------------------------------------------------

  ghost predicate IsDefault(presets: seq<Preset>, p: Preset) {
    p in presets && p.useForSummary
  }

  /** What saving a configuration further demands: one summary default, of summary kind. */
  ghost predicate HasSummaryDefault(presets: seq<Preset>) {
    && AtMostOneDefault(presets)
    && exists p :: IsDefault(presets, p) && p.presetKind.Summary?
  }

  /** The three edits that leave a draft without a proper summary default. */
  predicate LosesDefault(c: Config, a: Action) {
    && TargetPreset(a).Some?
    && FindPreset(c, TargetPreset(a).value).Some?
    && var p := c.presets[FindPreset(c, TargetPreset(a).value).value];
    match a
    case DeletePreset(_) => p.useForSummary && p.deletable
    case SetPresetKind(_, kind) => p.useForSummary && !kind.Summary?
    case SetSummaryDefault(_) => !p.presetKind.Summary?
    case _ => false
  }

  lemma {:induction false} UniqueDefault(presets: seq<Preset>, p: Preset)
    requires AtMostOneDefault(presets) && IsDefault(presets, p)
    ensures HasSummaryDefault(presets) <==> p.presetKind.Summary?
  {
  }

  lemma {:induction false} DeleteLosesDefault(c: Config, i: nat, id: string)
    requires Valid(c) && HasSummaryDefault(c.presets)
    requires FindPreset(c, id) == Some(i) && c.presets[i].deletable
    ensures HasSummaryDefault(WithoutPreset(c.presets, id)) <==> !c.presets[i].useForSummary
  {
    var d :| IsDefault(c.presets, d) && d.presetKind.Summary?;
    assert c.presets[i] in c.presets;
    if d.id == id {
      SameIdSamePreset(c.presets, d, c.presets[i]);
      assert forall p :: !IsDefault(WithoutPreset(c.presets, id), p);
    } else {
      assert IsDefault(WithoutPreset(c.presets, id), d);
    }
  }

  lemma {:induction false} MoveDefault(c: Config, i: nat, id: string)
    requires Valid(c) && FindPreset(c, id) == Some(i)
    ensures HasSummaryDefault(OnlyDefault(c.presets, id)) <==> c.presets[i].presetKind.Summary?
  {
    DefaultMoved(c, id);
    var marked := OnlyDefault(c.presets, id);
    assert marked[i] in marked && IsDefault(marked, marked[i]);
    UniqueDefault(marked, marked[i]);
  }

  lemma {:induction false} ReplaceAndDefault(c: Config, i: nat, p: Preset)
    requires Valid(c) && HasSummaryDefault(c.presets) && i < |c.presets| && SameFlags(p, c.presets[i])
    ensures HasSummaryDefault(c.presets[i := p]) <==> !(p.useForSummary && !p.presetKind.Summary?)
  {
    var presets := c.presets[i := p];
    ReplacedDefaults(c.presets, i, p);
    assert presets[i] in presets && c.presets[i] in c.presets;
    if p.useForSummary {
      UniqueDefault(presets, p);
    } else {
      var d :| IsDefault(c.presets, d) && d.presetKind.Summary?;
      var k :| 0 <= k < |c.presets| && c.presets[k] == d;
      assert presets[k] == d && IsDefault(presets, d);
    }
  }

  lemma {:induction false} KindOfDefault(c: Config, i: nat)
    requires Valid(c) && HasSummaryDefault(c.presets) && i < |c.presets| && c.presets[i].useForSummary
    ensures c.presets[i].presetKind.Summary?
  {
    assert IsDefault(c.presets, c.presets[i]);
    UniqueDefault(c.presets, c.presets[i]);
  }

  /**
   An action, applied or refused, leaves the one summary default of summary kind exactly when it is none of the
   three that lose it: deleting a deletable default, giving it another kind, or making a preset of another kind
   the default.
   */
  lemma {:induction false} DefaultKeptIff(c: Config, a: Action, slug: Slugger)
    requires Valid(c) && HasSummaryDefault(c.presets)
    ensures HasSummaryDefault(Next(c, a, slug).presets) <==> !LosesDefault(c, a)
  {
    DistinctIdsNeverBreak(c, a, slug);
    if Apply(c, a, slug).Applied? {
      AppliedDefaultKeptIff(c, a, slug);
    } else if a.DeletePreset? && FindPreset(c, a.presetId).Some? {
      assert !c.presets[FindPreset(c, a.presetId).value].deletable;
    }
  }

  lemma {:induction false} AppliedDefaultKeptIff(c: Config, a: Action, slug: Slugger)
    requires Valid(c) && HasSummaryDefault(c.presets) && Apply(c, a, slug).Applied?
    ensures HasSummaryDefault(Apply(c, a, slug).config.presets) <==> !LosesDefault(c, a)
  {
    if TargetPreset(a).Some? {
      var i := FindPreset(c, TargetPreset(a).value).value;
      if a.SetSummaryDefault? {
        MoveDefault(c, i, a.presetId);
      } else if a.DeletePreset? {
        DeleteLosesDefault(c, i, a.presetId);
      } else if !a.EditPreset? {
        ReplaceAndDefault(c, i, Apply(c, a, slug).config.presets[i]);
        if c.presets[i].useForSummary {
          KindOfDefault(c, i);
        }
      }
    } else if a.AddPreset? {
      var d :| IsDefault(c.presets, d) && d.presetKind.Summary?;
      assert IsDefault(Apply(c, a, slug).config.presets, d);
    }
  }

  // ---------------------------------------------------------------------------------------------
  // What undoes what
  // ---------------------------------------------------------------------------------------------

  lemma {:induction false} WithoutAbsent(presets: seq<Preset>, id: string)
    requires id !in PresetIds(presets)
    ensures WithoutPreset(presets, id) == presets
  {
    if presets != [] {
      var front, last := presets[..|presets| - 1], presets[|presets| - 1];
      assert PresetIds(presets) == PresetIds(front) + [last.id];
      WithoutAbsent(front, id);
    }
  }

  lemma {:induction false} WithoutAbsentModel(models: seq<ModelPreset>, id: string)
    requires id !in ModelIds(models)
    ensures WithoutModel(models, id) == models
  {
    if models != [] {
      var front, last := models[..|models| - 1], models[|models| - 1];
      assert ModelIds(models) == ModelIds(front) + [last.id];
      WithoutAbsentModel(front, id);
    }
  }

  lemma {:induction false} WithoutAppended(presets: seq<Preset>, p: Preset)
    requires p.id !in PresetIds(presets)
    ensures WithoutPreset(presets + [p], p.id) == presets
  {
    assert (presets + [p])[..|presets|] == presets;
    WithoutAbsent(presets, p.id);
  }

  lemma {:induction false} WithoutAppendedModel(models: seq<ModelPreset>, m: ModelPreset)
    requires m.id !in ModelIds(models)
    ensures WithoutModel(models + [m], m.id) == models
  {
    assert (models + [m])[..|models|] == models;
    WithoutAbsentModel(models, m.id);
  }

  lemma {:induction false} FindAppended(ids: seq<string>, id: string)
    requires id !in ids
    ensures Find(ids + [id], id) == Some(|ids|)
  {
    assert (ids + [id])[|ids|] == id;
  }

  lemma {:induction false} DeleteAppended(c: Config, p: Preset, slug: Slugger)
    requires p.id !in PresetIds(c.presets) && p.deletable
    ensures Apply(c.(presets := c.presets + [p]), DeletePreset(p.id), slug) == Applied(c)
  {
    var added := c.(presets := c.presets + [p]);
    WithoutAppended(c.presets, p);
    assert FindPreset(added, p.id) == Some(|c.presets|) by {
      assert PresetIds(added.presets) == PresetIds(c.presets) + [p.id];
      FindAppended(PresetIds(c.presets), p.id);
    }
    assert added.presets[|c.presets|] == p;
    assert ApplyToPreset(added, |c.presets|, DeletePreset(p.id)) == Applied(c);
  }

  /** Deleting a preset just added gives back the draft. */
  lemma {:induction false} DeleteUndoesAdd(c: Config, id: string, labelText: string, slug: Slugger)
    requires FindPreset(c, id).None?
    ensures var added := Apply(c, AddPreset(id, labelText), slug);
            added.Applied? && Apply(added.config, DeletePreset(id), slug) == Applied(c)
  {
    DeleteAppended(c, NewPreset(id, labelText), slug);
  }

  lemma {:induction false} FreshModelUnassigned(c: Config, id: string)
    requires Valid(c) && id !in ModelIds(c.modelPresets)
    ensures Assignments(c.presets, id) == []
  {
    forall i | 0 <= i < |c.presets|
      ensures c.presets[i].modelPresetId != Some(id)
    {
      assert c.presets[i] in c.presets;
    }
  }

  lemma {:induction false} DeleteAppendedModel(c: Config, m: ModelPreset)
    requires Valid(c) && m.id !in ModelIds(c.modelPresets)
    ensures AppliedDeleteModelPreset(c.(modelPresets := c.modelPresets + [m], activePresetId := m.id), m.id)
         == Applied(c.(activePresetId := c.modelPresets[0].id))
  {
    var added := c.(modelPresets := c.modelPresets + [m], activePresetId := m.id);
    FreshModelUnassigned(c, m.id);
    WithoutAppendedModel(c.modelPresets, m);
    assert FindModel(added, m.id).Some? by {
      assert ModelIds(added.modelPresets) == ModelIds(c.modelPresets) + [m.id];
      FindAppended(ModelIds(c.modelPresets), m.id);
    }
    assert FindModel(c.(activePresetId := m.id), m.id).None?;
  }

  /**
   Deleting a model preset just added gives back the list of model presets; the active model preset is then
   the first of the list, so the draft is given back exactly when the first was active.
   */
  lemma {:induction false} DeleteUndoesAddModelIff(c: Config, slug: Slugger)
    requires Valid(c)
    ensures var added := AppliedAddModelPreset(c, slug);
            && added.Applied?
            && var undone := AppliedDeleteModelPreset(added.config, added.config.activePresetId);
            && undone == Applied(c.(activePresetId := c.modelPresets[0].id))
            && (undone == Applied(c) <==> c.activePresetId == c.modelPresets[0].id)
  {
    var active := c.modelPresets[ActiveModel(c)];
    var id := UniqueId(ModelIds(c.modelPresets), BaseId(slug, active.labelText));
    DeleteAppendedModel(c, active.(id := id));
  }

  /** Deleting another model preset leaves the active one active. */
  lemma {:induction false} DeleteKeepsActive(c: Config, id: string)
    requires c.activePresetId in ModelIds(c.modelPresets)
    ensures AppliedDeleteModelPreset(c, id).Applied? ==>
            var after := AppliedDeleteModelPreset(c, id).config;
            && (id != c.activePresetId ==> after.activePresetId == c.activePresetId)
            && (id == c.activePresetId ==> after.activePresetId == after.modelPresets[0].id)
            && after.presets == c.presets
  {
    ModelIdsWithout(c.modelPresets, id);
  }

  // ---------------------------------------------------------------------------------------------
  // A small draft
  // ---------------------------------------------------------------------------------------------

  function Builtin(id: string, kind: PresetKind): Preset {
    Preset(id, id, kind, id == "summary", true, false, [], None)
  }

  const SMALL_DRAFT := Config(
    [Builtin("summary", Summary), Builtin("repo-search", RepoSearch), Builtin("chat", Chat),
     Builtin("plan", Plan), Builtin("repo-agent", RepoAgent), Builtin("orchestrator", Orchestrator)],
    [ModelPreset("small", "Small", ""), ModelPreset("large", "Large", "")],
    "large")

  lemma {:induction false} SmallDraftIds()
    ensures PresetIds(SMALL_DRAFT.presets) == BUILTIN_PRESET_IDS
    ensures ModelIds(SMALL_DRAFT.modelPresets) == ["small", "large"]
    ensures Distinct(BUILTIN_PRESET_IDS)
  {
    assert |"summary"| == 7 && |"repo-search"| == 11 && |"chat"| == 4 && |"plan"| == 4;
    assert |"repo-agent"| == 10 && |"orchestrator"| == 12 && "chat"[0] != "plan"[0];
  }

  lemma {:induction false} SmallDraftCatalog()
    ensures CatalogMembers(SMALL_DRAFT.presets)
  {
    SmallDraftIds();
    var presets := SMALL_DRAFT.presets;
    forall b | b in BUILTIN_PRESET_IDS
      ensures HasBuiltin(presets, b)
    {
      var k :| 0 <= k < |presets| && BUILTIN_PRESET_IDS[k] == b;
      assert presets[k] in presets && presets[k].id == PresetIds(presets)[k];
    }
    forall p | p in presets
      ensures p.id in BUILTIN_PRESET_IDS
    {
      var k :| 0 <= k < |presets| && presets[k] == p;
      assert p.id == PresetIds(presets)[k];
    }
  }

  lemma {:induction false} SmallDraftDefault()
    ensures AtMostOneDefault(SMALL_DRAFT.presets) && HasSummaryDefault(SMALL_DRAFT.presets)
  {
    SmallDraftIds();
    var presets := SMALL_DRAFT.presets;
    forall p | p in presets && p.useForSummary
      ensures p == presets[0]
    {
      var k :| 0 <= k < |presets| && presets[k] == p;
      assert PresetIds(presets)[k] == "summary" == PresetIds(presets)[0];
    }
    assert IsDefault(presets, presets[0]);
  }

  lemma {:induction false} SmallDraftModels()
    ensures Distinct(ModelIds(SMALL_DRAFT.modelPresets))
    ensures SMALL_DRAFT.modelPresets != [] && SMALL_DRAFT.activePresetId in ModelIds(SMALL_DRAFT.modelPresets)
  {
    SmallDraftIds();
    assert "small"[0] != "large"[0];
    assert ModelIds(SMALL_DRAFT.modelPresets)[1] == SMALL_DRAFT.activePresetId;
  }

  lemma {:induction false} SmallDraftUnrouted(p: Preset)
    requires p in SMALL_DRAFT.presets
    ensures p.modelPresetId.None?
  {
  }

  lemma {:induction false} SmallDraftValid()
    ensures Valid(SMALL_DRAFT)
  {
    SmallDraftIds();
    SmallDraftCatalog();
    SmallDraftDefault();
    SmallDraftModels();
    forall p | p in SMALL_DRAFT.presets
      ensures p.modelPresetId.None?
    {
      SmallDraftUnrouted(p);
    }
  }

  lemma {:induction false} SmallDraftLookups()
    ensures FindPreset(SMALL_DRAFT, "summary") == Some(0)
    ensures FindPreset(SMALL_DRAFT, "chat") == Some(2)
  {
    SmallDraftIds();
    assert BUILTIN_PRESET_IDS[0] == "summary" && BUILTIN_PRESET_IDS[2] == "chat";
  }

  lemma {:induction false} SmallDraftEdits()
    ensures LosesDefault(SMALL_DRAFT, SetPresetKind("summary", Chat))
    ensures LosesDefault(SMALL_DRAFT, SetSummaryDefault("chat"))
  {
    SmallDraftLookups();
  }

  /** Each of two ordinary edits of the small draft leaves it without a summary default of summary kind. */
  lemma {:induction false} SummaryDefaultLost(slug: Slugger)
    ensures Valid(SMALL_DRAFT) && HasSummaryDefault(SMALL_DRAFT.presets)
    ensures !HasSummaryDefault(Next(SMALL_DRAFT, SetPresetKind("summary", Chat), slug).presets)
    ensures !HasSummaryDefault(Next(SMALL_DRAFT, SetSummaryDefault("chat"), slug).presets)
  {
    SmallDraftValid();
    SmallDraftDefault();
    SmallDraftEdits();
    LosingEdit(SMALL_DRAFT, SetPresetKind("summary", Chat), slug);
    LosingEdit(SMALL_DRAFT, SetSummaryDefault("chat"), slug);
  }

  lemma {:induction false} LosingEdit(c: Config, a: Action, slug: Slugger)
    requires Valid(c) && HasSummaryDefault(c.presets) && LosesDefault(c, a)
    ensures !HasSummaryDefault(Next(c, a, slug).presets)
  {
    DefaultKeptIff(c, a, slug);
  }

  /** With the second model preset active, adding one and deleting it again leaves the first one active. */
  lemma {:induction false} ActiveModelLost(slug: Slugger)
    ensures var added := AppliedAddModelPreset(SMALL_DRAFT, slug);
            && added.Applied?
            && AppliedDeleteModelPreset(added.config, added.config.activePresetId)
            == Applied(SMALL_DRAFT.(activePresetId := "small"))
    ensures SMALL_DRAFT.activePresetId != "small"
  {
    SmallDraftValid();
    DeleteUndoesAddModelIff(SMALL_DRAFT, slug);
    assert "small"[0] != "large"[0];
  }
}
