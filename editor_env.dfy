/** The production environment of the editor: how a task's data is handed to
    the editor, which parts of a task make up its initial state, and how the
    host's configuration object becomes the editor's options (legacy callback
    names, defaults from the editor's `External` callbacks, messages merged
    over the defaults, flags defaulting to false). Values are JavaScript values
    as `Common.Val` describes them. */
module EditorEnv {
  import opened Common

  /** `o[k]` on any value: only objects have fields. */
  function Field(v: Val, k: string): Val {
    if v.Obj? then Get(v.fields, k) else Undefined
  }

  /** `a || b` */
  function Or(a: Val, b: Val): (r: Val)
    ensures Truthy(a) ==> r == a
    ensures !Truthy(a) ==> r == b
  {
    if Truthy(a) then a else b
  }

  /** `getData`: a task whose `data` is truthy is copied with `data` replaced
      by its serialisation; any other value is returned as it is. */
  function GetData(task: Val, stringify: Val -> string): (r: Val)
    ensures !(task.Obj? && Truthy(Get(task.fields, "data"))) ==> r == task
    ensures task.Obj? && Truthy(Get(task.fields, "data")) ==>
      r.Obj? && r.fields.Keys == task.fields.Keys
      && r.fields["data"] == Str(stringify(task.fields["data"]))
      && forall k :: k in task.fields && k != "data" ==> r.fields[k] == task.fields[k]
  {
    if task.Obj? && Truthy(Get(task.fields, "data"))
    then Obj(task.fields["data" := Str(stringify(task.fields["data"]))])
    else task
  }

  /** `getState`: exactly the task's annotations, completions and
      predictions, each undefined for a null or undefined task. */
  function GetState(task: Val): (r: Val)
    ensures r.Obj? && r.fields.Keys == {"annotations", "completions", "predictions"}
    ensures forall k :: k in r.fields ==> r.fields[k] == Field(task, k)
    ensures Nullish(task) ==> forall k :: k in r.fields ==> r.fields[k] == Undefined
  {
    var pick := (k: string) => if Nullish(task) then Undefined else Field(task, k);
    Obj(map["annotations" := pick("annotations"), "completions" := pick("completions"),
            "predictions" := pick("predictions")])
  }

  /** The editor's built-in handler of that name (`External.<name>`). */
  function External(name: string): Val {
    Fn("External." + name)
  }

  /** Handlers that fall back to the built-in one when the host's is falsy. */
  const FallbackHandlers: set<string> := {
    "onTaskLoad", "onLabelStudioLoad", "onEntityCreate", "onEntityDelete", "onGroundTruth",
    "onSelectAnnotation", "onAcceptAnnotation", "onRejectAnnotation", "onStorageInitialized",
    "onNextTask", "onPrevTask"
  }

  /** An annotation handler that also accepts a legacy name: only when the
      current name is set does the legacy one count, and then it wins. */
  function AnnotationHandler(params: map<string, Val>, name: string, legacyName: string): (r: Val)
    ensures Truthy(Get(params, name)) ==> r == Or(Get(params, legacyName), Get(params, name))
    ensures !Truthy(Get(params, name)) ==> r == External(name)
  {
    if Truthy(Get(params, name)) then Or(Get(params, legacyName), Get(params, name)) else External(name)
  }

  /** `params.<name> || External.<name>`, also written `params.<name> ? params.<name> : External.<name>` */
  function Handler(params: map<string, Val>, name: string): (r: Val)
    ensures r == Or(Get(params, name), External(name))
  {
    if Truthy(Get(params, name)) then Get(params, name) else External(name)
  }

  /** The handlers named in `FallbackHandlers`, each the host's or else the built-in one. */
  function Handlers(params: map<string, Val>): (handlers: map<string, Val>)
    ensures handlers.Keys == FallbackHandlers
    ensures forall name :: name in FallbackHandlers ==> handlers[name] == Or(Get(params, name), External(name))
  {
    map name | name in FallbackHandlers :: Handler(params, name)
  }

  /** `a ?? false` */
  function OrFalse(v: Val): Val {
    if Nullish(v) then Bool(false) else v
  }

  /** `Object.assign({}, defaults, messages)`: null and undefined add nothing;
      an object's fields override the defaults. */
  function MergedMessages(defaults: map<string, Val>, messages: Val): map<string, Val> {
    if messages.Obj? then defaults + messages.fields else defaults
  }

  /** The options `configureApplication` hands to the editor. */
  datatype Options = Options(
    settings: Val,
    messages: map<string, Val>,
    onSubmitAnnotation: Val,
    onUpdateAnnotation: Val,
    onDeleteAnnotation: Val,
    onSkipTask: Val,
    onUnskipTask: Val,
    onSubmitDraft: Val,
    onPresignUrlForProject: Val,
    /** the handlers named in `FallbackHandlers` */
    handlers: map<string, Val>,
    forceAutoAnnotation: Val,
    forceAutoAcceptSuggestions: Val)

  /** `configureApplication`: the editor's options for the host's parameters. */
  function ConfigureApplication(params: map<string, Val>, defaultMessages: map<string, Val>): (options: Options)
    ensures options.settings == Or(Get(params, "settings"), Obj(map[]))
    ensures options.messages == MergedMessages(defaultMessages, Get(params, "messages"))
    ensures Truthy(Get(params, "onSubmitAnnotation")) ==>
      options.onSubmitAnnotation == Or(Get(params, "submitAnnotation"), Get(params, "onSubmitAnnotation"))
    ensures !Truthy(Get(params, "onSubmitAnnotation")) ==> options.onSubmitAnnotation == External("onSubmitAnnotation")
    ensures Truthy(Get(params, "onUpdateAnnotation")) ==>
      options.onUpdateAnnotation == Or(Get(params, "updateAnnotation"), Get(params, "onUpdateAnnotation"))
    ensures !Truthy(Get(params, "onUpdateAnnotation")) ==> options.onUpdateAnnotation == External("onUpdateAnnotation")
    ensures Truthy(Get(params, "onDeleteAnnotation")) ==>
      options.onDeleteAnnotation == Or(Get(params, "deleteAnnotation"), Get(params, "onDeleteAnnotation"))
    ensures !Truthy(Get(params, "onDeleteAnnotation")) ==> options.onDeleteAnnotation == External("onDeleteAnnotation")
    ensures options.onSkipTask == Or(Get(params, "onSkipTask"), External("onSkipTask"))
    ensures options.onUnskipTask == Or(Get(params, "onUnskipTask"), External("onUnskipTask"))
    ensures options.onSubmitDraft == Get(params, "onSubmitDraft")
    ensures options.onPresignUrlForProject == Get(params, "onPresignUrlForProject")
    ensures options.handlers.Keys == FallbackHandlers
    ensures forall name :: name in FallbackHandlers ==> options.handlers[name] == Or(Get(params, name), External(name))
    ensures options.forceAutoAnnotation == OrFalse(Get(params, "forceAutoAnnotation"))
    ensures options.forceAutoAcceptSuggestions == OrFalse(Get(params, "forceAutoAcceptSuggestions"))
  {
    Options(
      settings := Or(Get(params, "settings"), Obj(map[])),
      messages := MergedMessages(defaultMessages, Get(params, "messages")),
      onSubmitAnnotation := AnnotationHandler(params, "onSubmitAnnotation", "submitAnnotation"),
      onUpdateAnnotation := AnnotationHandler(params, "onUpdateAnnotation", "updateAnnotation"),
      onDeleteAnnotation := AnnotationHandler(params, "onDeleteAnnotation", "deleteAnnotation"),
      onSkipTask := Handler(params, "onSkipTask"),
      onUnskipTask := Handler(params, "onUnskipTask"),
      onSubmitDraft := Get(params, "onSubmitDraft"),
      onPresignUrlForProject := Get(params, "onPresignUrlForProject"),
      handlers := Handlers(params),
      forceAutoAnnotation := OrFalse(Get(params, "forceAutoAnnotation")),
      forceAutoAcceptSuggestions := OrFalse(Get(params, "forceAutoAcceptSuggestions")))
  }

  /** A host that passes only the legacy `submitAnnotation` gets the built-in
      submit handler; one that passes both gets the legacy one. */
  lemma {:induction false} LegacySubmitName(params: map<string, Val>, defaultMessages: map<string, Val>)
    ensures var options := ConfigureApplication(params, defaultMessages);
      (!Truthy(Get(params, "onSubmitAnnotation")) ==> options.onSubmitAnnotation == External("onSubmitAnnotation"))
      && (Truthy(Get(params, "onSubmitAnnotation")) && Truthy(Get(params, "submitAnnotation")) ==>
            options.onSubmitAnnotation == Get(params, "submitAnnotation"))
  {
  }

  /** The flags keep any value that is not null or undefined, falsy ones
      included: a host's `0` stays `0`, where `||` would have replaced it. */
  lemma {:induction false} FlagsKeepFalsyValues(params: map<string, Val>, defaultMessages: map<string, Val>)
    requires Get(params, "forceAutoAnnotation") == Num(0)
    ensures ConfigureApplication(params, defaultMessages).forceAutoAnnotation == Num(0)
  {
  }

  /** A message the host gives overrides the default; every other default stays. */
  lemma {:induction false} MessagesOverride(defaults: map<string, Val>, messages: map<string, Val>, k: string)
    ensures var merged := MergedMessages(defaults, Obj(messages));
      (k in messages ==> merged[k] == messages[k])
      && (k !in messages && k in defaults ==> merged[k] == defaults[k])
      && (k in merged <==> k in messages || k in defaults)
  {
  }

  /** A host that passes nothing gets every built-in handler, empty settings,
      the default messages and both flags off. */
  lemma {:induction false} EmptyParams(defaultMessages: map<string, Val>)
    ensures var options := ConfigureApplication(map[], defaultMessages);
      options.settings == Obj(map[]) && options.messages == defaultMessages
      && options.onSubmitAnnotation == External("onSubmitAnnotation")
      && options.onSkipTask == External("onSkipTask")
      && options.onSubmitDraft == Undefined
      && (forall name :: name in FallbackHandlers ==> options.handlers[name] == External(name))
      && options.forceAutoAnnotation == Bool(false) && options.forceAutoAcceptSuggestions == Bool(false)
  {
  }
}
