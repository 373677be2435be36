/** The tracer's reconcile handler for ConfigMaps: a label gate, an export
    triggered by the `log` annotation, and a phase advance requested by the
    `DEBUG_LASSO_KIND` annotation. The process-wide actor tag and phase are
    parameters; the CSV text and the store's update are given as outcomes. */
module ControlLoop {
  import opened Wrappers
  import MappingInfo
  import Csv

  const LoggerLabel := "LOGGER"
  const IgnoreValue := "ignore"
  const LogAnnotation := "log"
  const DoneValue := "done"
  const KindAnnotation := "DEBUG_LASSO_KIND"

  /** The parts of a ConfigMap the handler reads and writes. `data` is `None`
      when the object carries no data, which Go holds as a nil map. */
  datatype ConfigMap = ConfigMap(labels: map<string, string>, annotations: map<string, string>, data: Option<map<string, string>>)

  /** An object passed between the dispatcher and its handlers: nothing (a
      deleted object), an object of some other shape, an unstructured object
      holding a ConfigMap (what the cache delivers), or a typed ConfigMap (the
      deep copy the handler hands on). Only the unstructured form is handled. */
  datatype Object = Nil | OtherShape | ConfigMapObject(cm: ConfigMap) | TypedConfigMap(cm: ConfigMap)

  /** How the store's update call turned out. */
  datatype UpdateOutcome = UpdateOk | UpdateFailed(err: string)

  /** One handler invocation: the object and error returned to the dispatcher,
      the object sent to the store's update if it was called (it is called at
      most once), and the phase afterwards. `Panicked` is a write into a nil data map. */
  datatype Step =
    | Returned(obj: Object, err: Option<string>, sent: Option<ConfigMap>, phase: string)
    | Panicked

  /** The label gate lets the object through: `LOGGER` is present and not "ignore". */
  predicate Gated(cm: ConfigMap)
  {
    LoggerLabel in cm.labels && cm.labels[LoggerLabel] != IgnoreValue
  }

  /** The object asks this actor for an export: its `log` annotation is the actor tag. */
  predicate Triggered(cm: ConfigMap, actor: string)
  {
    LogAnnotation in cm.annotations && cm.annotations[LogAnnotation] == actor
  }

  /** The phase after reading the object: a present, non-empty `DEBUG_LASSO_KIND`
      other than "ignore" replaces it. */
  function NextPhase(cm: ConfigMap, phase: string): (p: string)
    ensures p == phase || (KindAnnotation in cm.annotations && p == cm.annotations[KindAnnotation])
    ensures p != phase ==> p != "" && p != IgnoreValue
    ensures (KindAnnotation in cm.annotations && cm.annotations[KindAnnotation] != ""
             && cm.annotations[KindAnnotation] != IgnoreValue) ==> p == cm.annotations[KindAnnotation]
  {
    if KindAnnotation in cm.annotations && cm.annotations[KindAnnotation] != "" && cm.annotations[KindAnnotation] != IgnoreValue
    then cm.annotations[KindAnnotation]
    else phase
  }

  /** Reading the same ConfigMap twice moves the phase no further than reading it once. */
  lemma NextPhaseIdempotent(cm: ConfigMap, phase: string)
    ensures NextPhase(cm, NextPhase(cm, phase)) == NextPhase(cm, phase)
  {
  }

  /** The data of a ConfigMap, a nil map reading as empty. */
  function DataOf(cm: ConfigMap): map<string, string>
  {
    cm.data.GetOr(map[])
  }

  /** `after` differs from `before` at most in the `log` annotation and in the
      data entry named by the actor tag. */
  ghost predicate KeepsOthers(before: ConfigMap, after: ConfigMap, actor: string)
  {
    && after.labels == before.labels
    && (forall key :: key != LogAnnotation ==>
          (key in after.annotations <==> key in before.annotations)
          && (key in before.annotations ==> after.annotations[key] == before.annotations[key]))
    && (forall key :: key != actor ==>
          (key in DataOf(after) <==> key in DataOf(before))
          && (key in DataOf(before) ==> DataOf(after)[key] == DataOf(before)[key]))
  }

  /** The export path once the CSV text exists and the data map is `data`:
      store the text under the actor tag, mark the object done, and update it. */
  function ExportInto(obj: Object, cm: ConfigMap, data: map<string, string>, actor: string, phase: string,
                      text: string, update: UpdateOutcome): (s: Step)
    // The update is called once, with the export stored and the object marked done.
    ensures s.Returned? && s.sent.Some?
    ensures LogAnnotation in s.sent.value.annotations && s.sent.value.annotations[LogAnnotation] == DoneValue
    ensures s.sent.value.data.Some? && actor in DataOf(s.sent.value) && DataOf(s.sent.value)[actor] == text
    // Every other data entry is the one in `data`; labels and other annotations are kept.
    ensures forall key :: key != actor ==>
              (key in DataOf(s.sent.value) <==> key in data)
              && (key in data ==> DataOf(s.sent.value)[key] == data[key])
    ensures DataOf(cm) == data ==> KeepsOthers(cm, s.sent.value, actor)
    // A failed update hands back the delivered object and the error, and keeps the phase.
    ensures update.UpdateFailed? ==> s.obj == obj && s.err == Some(update.err) && s.phase == phase
    // A successful one hands on a typed copy of the sent object and applies the phase request.
    ensures update.UpdateOk? ==> s.obj == TypedConfigMap(s.sent.value) && s.err.None? && s.phase == NextPhase(cm, phase)
  {
    var cp := cm.(data := Some(data[actor := text]), annotations := cm.annotations[LogAnnotation := DoneValue]);
    match update
    case UpdateFailed(err) => Returned(obj, Some(err), Some(cp), phase)
    case UpdateOk =>
      assert NextPhase(cp, phase) == NextPhase(cm, phase);
      Returned(TypedConfigMap(cp), None, Some(cp), NextPhase(cp, phase))
  }

  /** The handler as written. `csv` is the outcome of exporting the registry
      filtered by the actor tag; `update` is the outcome of the store's update. */
  function Handle(obj: Object, actor: string, phase: string, csv: Result<string, string>, update: UpdateOutcome): (s: Step)
    // Anything but an unstructured ConfigMap, and any ConfigMap the label gate stops, passes through.
    ensures !obj.ConfigMapObject? || !Gated(obj.cm) ==> s == Returned(obj, None, None, phase)
    // Without the trigger a typed copy of the ConfigMap is handed on, with the phase advanced as requested.
    ensures obj.ConfigMapObject? && Gated(obj.cm) && !Triggered(obj.cm, actor)
            ==> s == Returned(TypedConfigMap(obj.cm), None, None, NextPhase(obj.cm, phase))
    // A failed export aborts before the update: nil, the error, and the phase unchanged.
    ensures obj.ConfigMapObject? && Gated(obj.cm) && Triggered(obj.cm, actor) && csv.Failure?
            ==> s == Returned(Nil, Some(csv.error), None, phase)
    // The only crash: a triggered export into a ConfigMap with no data map.
    ensures s.Panicked? <==> obj.ConfigMapObject? && Gated(obj.cm) && Triggered(obj.cm, actor) && csv.Success?
                             && obj.cm.data.None?
    // The update is called only for a triggered object whose export succeeded, with that
    // object marked done and holding the CSV text under the actor tag, and nothing else changed.
    // A triggered ConfigMap with data whose export succeeded is always updated, and the
    // handler reports an error exactly when the update failed.
    ensures obj.ConfigMapObject? && Gated(obj.cm) && Triggered(obj.cm, actor) && csv.Success? && obj.cm.data.Some?
            ==> s.Returned? && s.sent.Some? && (update.UpdateOk? <==> s.err.None?)
    ensures s.Returned? && s.sent.Some? ==>
              && obj.ConfigMapObject? && Triggered(obj.cm, actor) && csv.Success?
              && LogAnnotation in s.sent.value.annotations && s.sent.value.annotations[LogAnnotation] == DoneValue
              && actor in DataOf(s.sent.value) && DataOf(s.sent.value)[actor] == csv.value
              && KeepsOthers(obj.cm, s.sent.value, actor)
    // A failed update hands back the original object; the phase only moves on success.
    ensures s.Returned? && s.sent.Some? && update.UpdateFailed? ==> s.obj == obj && s.err == Some(update.err)
    ensures s.Returned? && s.err.Some? ==> s.phase == phase
    ensures s.Returned? && s.err.None? && obj.ConfigMapObject? && Gated(obj.cm) ==> s.phase == NextPhase(obj.cm, phase)
    // A successful return past the label gate is a typed copy: of the sent object when the
    // update was called, and otherwise of the delivered ConfigMap.
    ensures s.Returned? && s.err.None? && obj.ConfigMapObject? && Gated(obj.cm)
            ==> s.obj == TypedConfigMap(if s.sent.Some? then s.sent.value else obj.cm)
  {
    match obj
    case Nil => Returned(obj, None, None, phase)
    case OtherShape => Returned(obj, None, None, phase)
    case TypedConfigMap(_) => Returned(obj, None, None, phase)
    case ConfigMapObject(cm) =>
      if !Gated(cm) then Returned(obj, None, None, phase)
      else if !Triggered(cm, actor) then Returned(TypedConfigMap(cm), None, None, NextPhase(cm, phase))
      else
        match csv
        case Failure(err) => Returned(Nil, Some(err), None, phase)
        case Success(text) =>
          match cm.data
          case None => Panicked
          case Some(data) => ExportInto(obj, cm, data, actor, phase, text, update)
  }

  /** The handler with the evident intent at the data write: a ConfigMap without
      data gets a fresh data map instead of crashing the handler. Wherever the
      handler as written returns, this one returns the same. */
  function HandleFixed(obj: Object, actor: string, phase: string, csv: Result<string, string>, update: UpdateOutcome): (s: Step)
    ensures s.Returned?
    ensures !Handle(obj, actor, phase, csv, update).Panicked? ==> s == Handle(obj, actor, phase, csv, update)
    ensures Handle(obj, actor, phase, csv, update).Panicked? ==>
              && s.sent.Some?
              && s.sent.value.data == Some(map[actor := csv.value])
              && LogAnnotation in s.sent.value.annotations && s.sent.value.annotations[LogAnnotation] == DoneValue
              && KeepsOthers(obj.cm, s.sent.value, actor)
              && (update.UpdateOk? ==> s == Returned(TypedConfigMap(s.sent.value), None, s.sent, NextPhase(obj.cm, phase)))
              && (update.UpdateFailed? ==> s == Returned(obj, Some(update.err), s.sent, phase))
  {
    var s := Handle(obj, actor, phase, csv, update);
    if s.Panicked? then ExportInto(obj, obj.cm, map[], actor, phase, csv.value, update) else s
  }

  /** The object as written crashes on: labelled for logging, asking this actor
      for an export, and carrying no data. */
  lemma NilDataPanics(actor: string, phase: string, text: string, update: UpdateOutcome)
    ensures var cm := ConfigMap(map[LoggerLabel := "on"], map[LogAnnotation := actor], None);
            Handle(ConfigMapObject(cm), actor, phase, Success(text), update) == Panicked
  {
  }

  /** After a successful invocation past the label gate, the cache delivers the
      ConfigMap as now stored (the sent object, or the delivered one when no update
      was made). Handling it again does not export again, since its `log`
      annotation reads "done" or never named the actor, and changes nothing: no
      update, the same copy handed on, the phase where the first call left it.
      This needs the actor tag to differ from "done"; it is "rancher" or "agent". */
  lemma RedeliveryIsNoOp(obj: Object, actor: string, phase: string, csv: Result<string, string>, update: UpdateOutcome,
                         csv': Result<string, string>, update': UpdateOutcome)
    requires actor != DoneValue
    requires obj.ConfigMapObject?
    requires var s := HandleFixed(obj, actor, phase, csv, update); s.err.None? && s.obj.TypedConfigMap?
    ensures var s := HandleFixed(obj, actor, phase, csv, update);
            HandleFixed(ConfigMapObject(s.obj.cm), actor, s.phase, csv', update') == Returned(s.obj, None, None, s.phase)
  {
    var s := HandleFixed(obj, actor, phase, csv, update);
    var stored := s.obj.cm;
    assert Gated(obj.cm) && s.phase == NextPhase(obj.cm, phase);
    assert stored.labels == obj.cm.labels;
    assert KindAnnotation in stored.annotations <==> KindAnnotation in obj.cm.annotations;
    assert KindAnnotation in stored.annotations ==> stored.annotations[KindAnnotation] == obj.cm.annotations[KindAnnotation];
    assert NextPhase(stored, s.phase) == NextPhase(obj.cm, s.phase);
    NextPhaseIdempotent(obj.cm, phase);
    assert !Triggered(stored, actor);
  }

  /** At start-up the agent leaves a ConfigMap that asks "rancher" for an export
      alone, even one without data, and only follows its phase request. */
  lemma AgentSkipsRancherRequest(kind: string, csv: Result<string, string>, update: UpdateOutcome)
    requires kind != "" && kind != IgnoreValue
    ensures var cm := ConfigMap(map[LoggerLabel := "on"], map[LogAnnotation := MappingInfo.RancherActor, KindAnnotation := kind], None);
            Handle(ConfigMapObject(cm), MappingInfo.AgentActor, MappingInfo.InitialPhase, csv, update)
            == Returned(TypedConfigMap(cm), None, None, kind)
  {
  }

  /** A ConfigMap labelled for logging that asks "rancher" for an export and
      has no data yet: the corrected handler calls the update once, with the
      object marked done and the CSV text under "rancher", and returns that object. */
  lemma FirstExportScenario(text: string, phase: string)
    ensures var cm := ConfigMap(map[LoggerLabel := "on"], map[LogAnnotation := MappingInfo.RancherActor], None);
            var out := ConfigMap(cm.labels, map[LogAnnotation := DoneValue], Some(map[MappingInfo.RancherActor := text]));
            HandleFixed(ConfigMapObject(cm), MappingInfo.RancherActor, phase, Success(text), UpdateOk)
            == Returned(TypedConfigMap(out), None, Some(out), phase)
  {
    var cm := ConfigMap(map[LoggerLabel := "on"], map[LogAnnotation := MappingInfo.RancherActor], None);
    assert Handle(ConfigMapObject(cm), MappingInfo.RancherActor, phase, Success(text), UpdateOk).Panicked?;
    assert map[LogAnnotation := MappingInfo.RancherActor][LogAnnotation := DoneValue] == map[LogAnnotation := DoneValue];
    assert NextPhase(cm, phase) == phase;
  }

  /** The same request against a ConfigMap that already has a (possibly empty)
      data map: the handler as written updates it once, marked done with the
      text under "rancher", and hands on a typed copy. */
  lemma FirstExportWithData(text: string, phase: string)
    ensures var cm := ConfigMap(map[LoggerLabel := "on"], map[LogAnnotation := MappingInfo.RancherActor], Some(map[]));
            var out := ConfigMap(cm.labels, map[LogAnnotation := DoneValue], Some(map[MappingInfo.RancherActor := text]));
            Handle(ConfigMapObject(cm), MappingInfo.RancherActor, phase, Success(text), UpdateOk)
            == Returned(TypedConfigMap(out), None, Some(out), phase)
  {
    var cm := ConfigMap(map[LoggerLabel := "on"], map[LogAnnotation := MappingInfo.RancherActor], Some(map[]));
    assert map[LogAnnotation := MappingInfo.RancherActor][LogAnnotation := DoneValue] == map[LogAnnotation := DoneValue];
    assert NextPhase(cm, phase) == phase;
  }

  /** With a registry holding one event recorded by "rancher", the text stored
      by that first export reads back as the header and the event's row, and
      is what the exporter as written produces too. */
  lemma OneEventScenario(k: MappingInfo.Ressource, e: MappingInfo.RegisterData, phase: string)
    requires k.createdBy == MappingInfo.RancherActor
    requires MappingInfo.PlainKey(k) && MappingInfo.PlainEvent(e)
    ensures MappingInfo.IsIterationOrder(map[k := [e]], [k]) && MappingInfo.PlainRegistry(map[k := [e]])
    ensures var text := MappingInfo.ExportTextFlushed(map[k := [e]], MappingInfo.RancherActor, [k]);
            && Csv.Decode(text) == [MappingInfo.Header, MappingInfo.EventRow(k, e)]
            && text == MappingInfo.ExportText(map[k := [e]], MappingInfo.RancherActor, [k])
            && var cm := ConfigMap(map[LoggerLabel := "on"], map[LogAnnotation := MappingInfo.RancherActor], None);
               var out := ConfigMap(cm.labels, map[LogAnnotation := DoneValue], Some(map[MappingInfo.RancherActor := text]));
               HandleFixed(ConfigMapObject(cm), MappingInfo.RancherActor, phase, Success(text), UpdateOk)
               == Returned(TypedConfigMap(out), None, Some(out), phase)
  {
    MappingInfo.OneEventExport(k, e, MappingInfo.RancherActor);
    FirstExportScenario(MappingInfo.ExportTextFlushed(map[k := [e]], MappingInfo.RancherActor, [k]), phase);
  }
}
