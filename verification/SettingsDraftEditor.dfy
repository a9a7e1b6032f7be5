/** The draft editor as it runs: one configuration, changed in place by `Apply`. */
module SettingsDraftEditorModel {
  import opened Prelude
  import opened FreshIds
  import opened SettingsDraft

  class DraftEditor {
    const slug: Slugger
    var presets: seq<Preset>
    var modelPresets: seq<ModelPreset>
    var activePresetId: string

    ghost function View(): Config
      reads this
    {
      Config(presets, modelPresets, activePresetId)
    }

    constructor (config: Config, slug: Slugger)
      ensures View() == config && this.slug == slug
    {
      this.slug := slug;
      presets, modelPresets, activePresetId := config.presets, config.modelPresets, config.activePresetId;
    }

    /** Applies one action; `refusal` is the error the source throws. */
    method Apply(action: Action) returns (refusal: Option<Error>)
      modifies this
      ensures match SettingsDraft.Apply(old(View()), action, slug)
              case Applied(config) => refusal.None? && View() == config
              case Refused(error) => refusal == Some(error) && View() == old(View())
              case Broken(config, error) => refusal == Some(error) && View() == config
    {
      var target := TargetPreset(action);
      if target.Some? {
        var index := Find(PresetIds(presets), target.value);
        if index.None? {
          return Some(UnknownPreset(target.value));
        }
        refusal := ApplyToFound(index.value, action);
        return;
      }
      match action {
        case AddPreset(id, labelText) => refusal := AddPreset(id, labelText);
        case SetActiveModelPreset(id) =>
          if Find(ModelIds(modelPresets), id).None? {
            return Some(UnknownModelPreset(id));
          }
          activePresetId := id;
        case EditModelPreset(id, settings) =>
          var index := Find(ModelIds(modelPresets), id);
          if index.None? {
            return Some(UnknownModelPreset(id));
          }
          modelPresets := modelPresets[index.value := modelPresets[index.value].(settings := settings)];
        case SetModelLabel(id, value) =>
          var index := Find(ModelIds(modelPresets), id);
          if index.None? {
            return Some(UnknownModelPreset(id));
          }
          modelPresets := modelPresets[index.value := modelPresets[index.value].(labelText := value)];
        case AddModelPreset => refusal := AddModelPreset();
        case DeleteModelPreset(id) => refusal := DeleteModelPreset(id);
        case _ =>
      }
      if !(action.AddPreset? || action.AddModelPreset? || action.DeleteModelPreset?) {
        refusal := None;
      }
    }

    method ApplyToFound(index: nat, action: Action) returns (refusal: Option<Error>)
      requires index < |presets|
      modifies this
      ensures match ApplyToPreset(old(View()), index, action)
              case Applied(config) => refusal.None? && View() == config
              case Refused(error) => refusal == Some(error) && View() == old(View())
              case Broken(config, error) => refusal == Some(error) && View() == config
    {
      var preset := presets[index];
      match action {
        case SetPresetLabel(_, value) => presets := presets[index := preset.(labelText := value)];
        case SetPresetKind(_, kind) => presets := presets[index := preset.(presetKind := kind)];
        case SetPresetModel(_, model) =>
          if model.Some? && Find(ModelIds(modelPresets), model.value).None? {
            return Some(UnknownModelPreset(model.value));
          }
          presets := presets[index := preset.(modelPresetId := model)];
        case SetAutoloadFile(_, k, value) =>
          if !(0 <= k < |preset.autoloadFiles|) {
            return Some(InvalidAutoloadIndex(k, preset.id));
          }
          presets := presets[index := preset.(autoloadFiles := preset.autoloadFiles[k := value])];
        case AddAutoloadFile(_) =>
          presets := presets[index := preset.(autoloadFiles := preset.autoloadFiles + [""])];
        case RemoveAutoloadFile(_, k) =>
          if !(0 <= k < |preset.autoloadFiles|) {
            return Some(InvalidAutoloadIndex(k, preset.id));
          }
          var files := preset.autoloadFiles[..k] + preset.autoloadFiles[k + 1..];
          presets := presets[index := preset.(autoloadFiles := files)];
        case SetSummaryDefault(id) => MarkSummaryDefault(id);
        case DeletePreset(id) =>
          if !preset.deletable {
            return Some(NotDeletable(id));
          }
          presets := WithoutPreset(presets, id);
        case _ =>
      }
      return None;
    }

    /** The loop that makes one preset the default and every other not. */
    method MarkSummaryDefault(id: string)
      modifies this`presets
      ensures presets == OnlyDefault(old(presets), id)
    {
      for i := 0 to |presets|
        invariant |presets| == |old(presets)|
        invariant forall k | 0 <= k < i :: presets[k] == OnlyDefault(old(presets), id)[k]
        invariant forall k | i <= k < |presets| :: presets[k] == old(presets)[k]
      {
        presets := presets[i := presets[i].(useForSummary := presets[i].id == id)];
      }
    }

    method AddPreset(id: string, labelText: string) returns (refusal: Option<Error>)
      modifies this
      ensures FindPreset(old(View()), id).Some? ==> refusal == Some(PresetExists(id)) && View() == old(View())
      ensures FindPreset(old(View()), id).None? ==>
                refusal.None? && View() == old(View()).(presets := old(presets) + [NewPreset(id, labelText)])
    {
      if Find(PresetIds(presets), id).Some? {
        return Some(PresetExists(id));
      }
      presets := presets + [NewPreset(id, labelText)];
      return None;
    }

    /**
     Reads the active model preset, making the first one active when the active id is stale; an empty list
     has none.
     */
    method GetActiveModelPreset() returns (active: Option<ModelPreset>)
      modifies this`activePresetId
      ensures active.None? <==> modelPresets == []
      ensures active.None? ==> activePresetId == old(activePresetId)
      ensures active.Some? ==>
                active.value == modelPresets[ActiveModel(old(View()))] && activePresetId == active.value.id
    {
      if modelPresets == [] {
        return None;
      }
      var index := Find(ModelIds(modelPresets), activePresetId);
      active := Some(modelPresets[if index.Some? then index.value else 0]);
      activePresetId := active.value.id;
    }

    method AddModelPreset() returns (refusal: Option<Error>)
      modifies this
      ensures match AppliedAddModelPreset(old(View()), slug)
              case Applied(config) => refusal.None? && View() == config
              case Refused(error) => refusal == Some(error) && View() == old(View())
              case Broken(config, error) => refusal == Some(error) && View() == config
    {
      var active := GetActiveModelPreset();
      if active.None? {
        return Some(NoModelPresets);
      }
      var id := GetUniqueId(ModelIds(modelPresets), BaseId(slug, active.value.labelText));
      modelPresets := modelPresets + [active.value.(id := id)];
      activePresetId := id;
      return None;
    }

    method DeleteModelPreset(id: string) returns (refusal: Option<Error>)
      modifies this
      ensures match AppliedDeleteModelPreset(old(View()), id)
              case Applied(config) => refusal.None? && View() == config
              case Refused(error) => refusal == Some(error) && View() == old(View())
              case Broken(config, error) => refusal == Some(error) && View() == config
    {
      if Find(ModelIds(modelPresets), id).None? {
        return Some(UnknownModelPreset(id));
      }
      if |modelPresets| <= 1 {
        return Some(FinalModelPreset);
      }
      var routed := Assignments(presets, id);
      if routed != [] {
        return Some(ModelPresetAssigned(id, routed));
      }
      var remaining := WithoutModel(modelPresets, id);
      modelPresets := remaining;
      var active := GetActiveModelPreset();
      return if active.None? then Some(NoModelPresets) else None;
    }
  }
}
