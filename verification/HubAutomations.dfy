/** Automation rules of a hub: their validation in internal/webhook/v1/mdaihub_webhook.go and their
    translation in internal/controller/event_config_transformer.go. */
module HubAutomations {
  import opened Wrappers

  // ---------- Actions ----------

  datatype Kind =
    | AddToSet | RemoveFromSet | SetVariable | AddToMap | RemoveFromMap | CallWebhook | DeployReplay | CleanUpReplay

  const KINDS :=
    [AddToSet, RemoveFromSet, SetVariable, AddToMap, RemoveFromMap, CallWebhook, DeployReplay, CleanUpReplay]

  /** What an action says; of webhook calls and replay specs only whether the webhook takes them. */
  datatype Payload =
    | SetPayload(variable: string, value: string)
    | ScalarPayload(variable: string, value: string)
    | MapPayload(variable: string, key: string, entry: Option<string>)
    | WebhookPayload(call: string, acceptable: bool)
    | DeployPayload(statusVariable: string, spec: string, acceptable: bool)
    | CleanUpPayload

  /** One optional payload for each kind. */
  datatype Action = Action(
    addToSet: Option<Payload>, removeFromSet: Option<Payload>, setVariable: Option<Payload>, addToMap: Option<Payload>,
    removeFromMap: Option<Payload>, callWebhook: Option<Payload>, deployReplay: Option<Payload>,
    cleanUpReplay: Option<Payload>)
  {
    function At(k: Kind): Option<Payload> {
      match k
      case AddToSet => addToSet
      case RemoveFromSet => removeFromSet
      case SetVariable => setVariable
      case AddToMap => addToMap
      case RemoveFromMap => removeFromMap
      case CallWebhook => callWebhook
      case DeployReplay => deployReplay
      case CleanUpReplay => cleanUpReplay
    }
  }

  /** Space, tab, line feed, vertical tab, form feed and carriage return. */
  predicate IsSpace(c: char) { c == ' ' || 9 <= c as int <= 13 }

  predicate Blank(s: string) { forall i | 0 <= i < |s| :: IsSpace(s[i]) }

  /** The type of the payload is that of its field. */
  predicate HasShape(k: Kind, p: Payload) {
    match k
    case AddToSet => p.SetPayload?
    case RemoveFromSet => p.SetPayload?
    case SetVariable => p.ScalarPayload?
    case AddToMap => p.MapPayload?
    case RemoveFromMap => p.MapPayload?
    case CallWebhook => p.WebhookPayload?
    case DeployReplay => p.DeployPayload?
    case CleanUpReplay => p.CleanUpPayload?
  }

  predicate PayloadOk(k: Kind, p: Payload, known: set<string>) {
    HasShape(k, p) &&
    match p
    case SetPayload(v, _) => v in known
    case ScalarPayload(v, _) => v in known
    case MapPayload(v, _, value) => v in known && (k.AddToMap? ==> value.Some? && !Blank(value.value))
    case WebhookPayload(_, acceptable) => acceptable
    case DeployPayload(v, _, acceptable) => v in known && acceptable
    case CleanUpPayload => true
  }

  predicate OnlyOne(a: Action, k: Kind) { a.At(k).Some? && forall j: Kind | j != k :: a.At(j).None? }

  predicate ActionOk(a: Action, known: set<string>) {
    exists k: Kind :: OnlyOne(a, k) && PayloadOk(k, a.At(k).value, known)
  }

  lemma EveryKind(k: Kind) returns (i: nat)
    ensures i < |KINDS| && KINDS[i] == k
    ensures forall j | 0 <= j < |KINDS| && KINDS[j] == k :: j == i
  {
    i := match k
      case AddToSet => 0
      case RemoveFromSet => 1
      case SetVariable => 2
      case AddToMap => 3
      case RemoveFromMap => 4
      case CallWebhook => 5
      case DeployReplay => 6
      case CleanUpReplay => 7;
  }

  lemma KindsDiffer(i: nat, j: nat)
    requires i < j < |KINDS|
    ensures KINDS[i] != KINDS[j]
  {
    var k := EveryKind(KINDS[i]);
  }

  /** Looks for exactly one payload and checks it. */
  method ValidateAction(a: Action, known: set<string>) returns (ok: bool)
    ensures ok <==> ActionOk(a, known)
  {
    var presentIdx := -1;
    for i := 0 to |KINDS|
      invariant -1 <= presentIdx < i
      invariant presentIdx >= 0 ==> a.At(KINDS[presentIdx]).Some?
      invariant forall j | 0 <= j < i && j != presentIdx :: a.At(KINDS[j]).None?
    {
      if a.At(KINDS[i]).Some? {
        if presentIdx != -1 {
          KindsDiffer(presentIdx, i);
          return false;
        }
        presentIdx := i;
      }
    }
    forall k: Kind ensures a.At(k).Some? ==> presentIdx >= 0 && k == KINDS[presentIdx] {
      var i := EveryKind(k);
    }
    if presentIdx == -1 { return false; }
    assert OnlyOne(a, KINDS[presentIdx]);
    return PayloadOk(KINDS[presentIdx], a.At(KINDS[presentIdx]).value, known);
  }

  method ValidateThen(actions: seq<Action>, known: set<string>) returns (ok: bool)
    ensures ok <==> actions != [] && forall i | 0 <= i < |actions| :: ActionOk(actions[i], known)
  {
    if |actions| == 0 { return false; }
    ok := true;
    for i := 0 to |actions|
      invariant ok <==> forall j | 0 <= j < i :: ActionOk(actions[j], known)
    {
      var one := ValidateAction(actions[i], known);
      ok := ok && one;
    }
  }

  // ---------- Actions, field by field ----------

  const NOTHING := Action(None, None, None, None, None, None, None, None)

  lemma BlankIff(s: string)
    ensures Blank(s) <==> forall i | 0 <= i < |s| :: s[i] in {' ', '\t', '\n', '\r', 11 as char, 12 as char}
  {
  }

  /** Nothing but payloads of their fields' types is accepted, and only one of them. */
  lemma AcceptedIsSingle(a: Action, known: set<string>) returns (k: Kind)
    requires ActionOk(a, known)
    ensures forall j: Kind :: a.At(j).Some? <==> j == k
    ensures a.addToSet.Some? ==> a.addToSet.value.SetPayload?
    ensures a.removeFromSet.Some? ==> a.removeFromSet.value.SetPayload?
    ensures a.setVariable.Some? ==> a.setVariable.value.ScalarPayload?
    ensures a.addToMap.Some? ==> a.addToMap.value.MapPayload?
    ensures a.removeFromMap.Some? ==> a.removeFromMap.value.MapPayload?
    ensures a.callWebhook.Some? ==> a.callWebhook.value.WebhookPayload?
    ensures a.deployReplay.Some? ==> a.deployReplay.value.DeployPayload?
    ensures a.cleanUpReplay.Some? ==> a.cleanUpReplay.value.CleanUpPayload?
  {
    k :| OnlyOne(a, k) && PayloadOk(k, a.At(k).value, known);
    assert forall j: Kind :: a.At(j).Some? <==> j == k;
    assert a.addToSet == a.At(AddToSet) && a.removeFromSet == a.At(RemoveFromSet) && a.setVariable == a.At(SetVariable);
    assert a.addToMap == a.At(AddToMap) && a.removeFromMap == a.At(RemoveFromMap) && a.callWebhook == a.At(CallWebhook);
    assert a.deployReplay == a.At(DeployReplay) && a.cleanUpReplay == a.At(CleanUpReplay);
  }

  lemma OnlyThis(a: Action, k: Kind, known: set<string>)
    requires OnlyOne(a, k)
    ensures ActionOk(a, known) <==> PayloadOk(k, a.At(k).value, known)
  {
  }

  /** A variable action is accepted exactly if its variable is known; adding to a map needs a value that is
      not just space as well; deploying a replay needs a known status variable and a spec that is taken; a
      webhook call has to be taken, and cleaning up always is. */
  lemma SingleActionOkIff(variable: string, text: string, entry: Option<string>, acceptable: bool, known: set<string>)
    ensures ActionOk(NOTHING.(addToSet := Some(SetPayload(variable, text))), known) <==> variable in known
    ensures ActionOk(NOTHING.(removeFromSet := Some(SetPayload(variable, text))), known) <==> variable in known
    ensures ActionOk(NOTHING.(setVariable := Some(ScalarPayload(variable, text))), known) <==> variable in known
    ensures ActionOk(NOTHING.(addToMap := Some(MapPayload(variable, text, entry))), known) <==>
      variable in known && entry.Some? && !Blank(entry.value)
    ensures ActionOk(NOTHING.(removeFromMap := Some(MapPayload(variable, text, entry))), known) <==> variable in known
    ensures ActionOk(NOTHING.(callWebhook := Some(WebhookPayload(text, acceptable))), known) <==> acceptable
    ensures ActionOk(NOTHING.(deployReplay := Some(DeployPayload(variable, text, acceptable))), known) <==>
      variable in known && acceptable
    ensures ActionOk(NOTHING.(cleanUpReplay := Some(CleanUpPayload)), known)
  {
    OnlyThis(NOTHING.(addToSet := Some(SetPayload(variable, text))), AddToSet, known);
    OnlyThis(NOTHING.(removeFromSet := Some(SetPayload(variable, text))), RemoveFromSet, known);
    OnlyThis(NOTHING.(setVariable := Some(ScalarPayload(variable, text))), SetVariable, known);
    OnlyThis(NOTHING.(addToMap := Some(MapPayload(variable, text, entry))), AddToMap, known);
    OnlyThis(NOTHING.(removeFromMap := Some(MapPayload(variable, text, entry))), RemoveFromMap, known);
    OnlyThis(NOTHING.(callWebhook := Some(WebhookPayload(text, acceptable))), CallWebhook, known);
    OnlyThis(NOTHING.(deployReplay := Some(DeployPayload(variable, text, acceptable))), DeployReplay, known);
    OnlyThis(NOTHING.(cleanUpReplay := Some(CleanUpPayload)), CleanUpReplay, known);
  }

  // ---------- Commands ----------

  /** The payload stands for its encoding, which is total and injective. */
  datatype Command = Command(kind: Kind, inputs: Payload)

  /** The commands of the first n kinds that are present, in the order of the kinds. */
  function CommandsOf(a: Action, n: nat): seq<Command>
    requires n <= |KINDS|
  {
    if n == 0 then []
    else
      var before := CommandsOf(a, n - 1);
      if a.At(KINDS[n - 1]).Some? then before + [Command(KINDS[n - 1], a.At(KINDS[n - 1]).value)] else before
  }

  function AllCommands(actions: seq<Action>, n: nat): seq<Command>
    requires n <= |actions|
  {
    if n == 0 then [] else AllCommands(actions, n - 1) + CommandsOf(actions[n - 1], |KINDS|)
  }

  method TransformThenToCommands(actions: seq<Action>) returns (r: Result<seq<Command>, nat>)
    ensures r.Ok? <==> forall i | 0 <= i < |actions| :: CommandsOf(actions[i], |KINDS|) != []
    ensures r.Ok? ==> r.value == AllCommands(actions, |actions|)
  {
    var cmds: seq<Command> := [];
    for i := 0 to |actions|
      invariant cmds == AllCommands(actions, i)
      invariant forall j | 0 <= j < i :: CommandsOf(actions[j], |KINDS|) != []
    {
      var start := |cmds|;
      for n := 0 to |KINDS|
        invariant cmds == AllCommands(actions, i) + CommandsOf(actions[i], n)
      {
        if actions[i].At(KINDS[n]).Some? {
          cmds := cmds + [Command(KINDS[n], actions[i].At(KINDS[n]).value)];
        }
      }
      if |cmds| == start { return Err(i); }
    }
    return Ok(cmds);
  }

  lemma {:induction false} OneCommand(a: Action, k: Kind, i: nat, n: nat)
    requires OnlyOne(a, k) && i < |KINDS| && KINDS[i] == k && n <= |KINDS|
    ensures CommandsOf(a, n) == if i < n then [Command(k, a.At(k).value)] else []
  {
    if n > 0 {
      OneCommand(a, k, i, n - 1);
      if n - 1 < i { KindsDiffer(n - 1, i); }
      if i < n - 1 { KindsDiffer(i, n - 1); }
    }
  }

  /** Each field becomes the command of its kind. */
  lemma SingleActionCommand(p: Payload)
    ensures CommandsOf(NOTHING.(addToSet := Some(p)), |KINDS|) == [Command(AddToSet, p)]
    ensures CommandsOf(NOTHING.(removeFromSet := Some(p)), |KINDS|) == [Command(RemoveFromSet, p)]
    ensures CommandsOf(NOTHING.(setVariable := Some(p)), |KINDS|) == [Command(SetVariable, p)]
    ensures CommandsOf(NOTHING.(addToMap := Some(p)), |KINDS|) == [Command(AddToMap, p)]
    ensures CommandsOf(NOTHING.(removeFromMap := Some(p)), |KINDS|) == [Command(RemoveFromMap, p)]
    ensures CommandsOf(NOTHING.(callWebhook := Some(p)), |KINDS|) == [Command(CallWebhook, p)]
    ensures CommandsOf(NOTHING.(deployReplay := Some(p)), |KINDS|) == [Command(DeployReplay, p)]
    ensures CommandsOf(NOTHING.(cleanUpReplay := Some(p)), |KINDS|) == [Command(CleanUpReplay, p)]
  {
    OneCommand(NOTHING.(addToSet := Some(p)), AddToSet, 0, |KINDS|);
    OneCommand(NOTHING.(removeFromSet := Some(p)), RemoveFromSet, 1, |KINDS|);
    OneCommand(NOTHING.(setVariable := Some(p)), SetVariable, 2, |KINDS|);
    OneCommand(NOTHING.(addToMap := Some(p)), AddToMap, 3, |KINDS|);
    OneCommand(NOTHING.(removeFromMap := Some(p)), RemoveFromMap, 4, |KINDS|);
    OneCommand(NOTHING.(callWebhook := Some(p)), CallWebhook, 5, |KINDS|);
    OneCommand(NOTHING.(deployReplay := Some(p)), DeployReplay, 6, |KINDS|);
    OneCommand(NOTHING.(cleanUpReplay := Some(p)), CleanUpReplay, 7, |KINDS|);
  }

  /** An accepted action becomes exactly one command, of its kind and with its payload. */
  lemma AcceptedActionIsOneCommand(a: Action, known: set<string>) returns (k: Kind)
    requires ActionOk(a, known)
    ensures OnlyOne(a, k) && CommandsOf(a, |KINDS|) == [Command(k, a.At(k).value)]
  {
    k :| OnlyOne(a, k) && PayloadOk(k, a.At(k).value, known);
    var i := EveryKind(k);
    OneCommand(a, k, i, |KINDS|);
  }

  /** An accepted list translates without error into one command per action, in the same order. */
  lemma {:induction false} AcceptedThenTranslates(actions: seq<Action>, known: set<string>, n: nat)
    requires (forall i | 0 <= i < |actions| :: ActionOk(actions[i], known)) && n <= |actions|
    ensures |AllCommands(actions, n)| == n
    ensures forall i | 0 <= i < n :: CommandsOf(actions[i], |KINDS|) == [AllCommands(actions, n)[i]]
    ensures forall i | 0 <= i < n :: OnlyOne(actions[i], AllCommands(actions, n)[i].kind)
    ensures forall i | 0 <= i < n ::
      actions[i].At(AllCommands(actions, n)[i].kind) == Some(AllCommands(actions, n)[i].inputs)
  {
    if n > 0 {
      AcceptedThenTranslates(actions, known, n - 1);
      var k := AcceptedActionIsOneCommand(actions[n - 1], known);
      var before := AllCommands(actions, n - 1);
      assert forall i | 0 <= i < n - 1 :: AllCommands(actions, n)[i] == before[i];
    }
  }

  lemma SameOnlyPayload(a: Action, b: Action, k: Kind)
    requires OnlyOne(a, k) && OnlyOne(b, k) && a.At(k) == b.At(k)
    ensures a == b
  {
    forall j: Kind ensures a.At(j) == b.At(j) {
      if j != k { assert a.At(j).None? && b.At(j).None?; }
    }
    assert a.At(AddToSet) == b.At(AddToSet) && a.At(RemoveFromSet) == b.At(RemoveFromSet) &&
      a.At(SetVariable) == b.At(SetVariable);
    assert a.At(AddToMap) == b.At(AddToMap) && a.At(RemoveFromMap) == b.At(RemoveFromMap) &&
      a.At(CallWebhook) == b.At(CallWebhook);
    assert a.At(DeployReplay) == b.At(DeployReplay) && a.At(CleanUpReplay) == b.At(CleanUpReplay);
  }

  /** Nothing is lost: accepted lists that translate alike are alike. */
  lemma TranslationIsInjective(a: seq<Action>, b: seq<Action>, known: set<string>)
    requires (forall i | 0 <= i < |a| :: ActionOk(a[i], known)) && (forall i | 0 <= i < |b| :: ActionOk(b[i], known))
    requires AllCommands(a, |a|) == AllCommands(b, |b|)
    ensures a == b
  {
    AcceptedThenTranslates(a, known, |a|);
    AcceptedThenTranslates(b, known, |b|);
    forall i | 0 <= i < |a| ensures a[i] == b[i] {
      SameOnlyPayload(a[i], b[i], AllCommands(a, |a|)[i].kind);
    }
  }

  // ---------- Triggers ----------

  datatype When = When(alertName: Option<string>, status: Option<string>, variableUpdated: Option<string>,
                       updateType: Option<string>)

  datatype Trigger = AlertTrigger(name: string, status: string) | VariableTrigger(name: string, updateType: string)

  function Deref(s: Option<string>): string { if s.Some? then s.value else "" }

  /** The webhook looks at the texts with surrounding space trimmed off. */
  predicate Given(s: Option<string>) { !Blank(Deref(s)) }

  predicate WhenOk(w: When, known: set<string>, alerts: set<string>) {
    && (Given(w.status) ==> Given(w.alertName))
    && (Given(w.updateType) ==> Given(w.variableUpdated))
    && (Given(w.variableUpdated) ==> w.variableUpdated.value in known)
    && (Given(w.alertName) ==> w.alertName.value in alerts)
  }

  function TransformWhenToTrigger(w: When): Option<Trigger> {
    var hasAlert, hasVar := Deref(w.alertName) != "", Deref(w.variableUpdated) != "";
    if hasAlert && hasVar then None
    else if hasAlert then Some(AlertTrigger(Deref(w.alertName), Deref(w.status)))
    else if hasVar then Some(VariableTrigger(Deref(w.variableUpdated), Deref(w.updateType)))
    else None
  }

  /** What the schema of the resource requires. */
  predicate OneVariant(w: When) { w.alertName.Some? != w.variableUpdated.Some? }

  predicate NamesKnown(t: Trigger, known: set<string>, alerts: set<string>) {
    if t.AlertTrigger? then t.name in alerts else t.name in known
  }

  /** A condition on an alert or on a variable is accepted exactly if the name is a known one, or blank with
      nothing else given; a status without an alert, or an update type without a variable, is not. */
  lemma WhenOkIff(alert: string, variable: string, status: Option<string>, updateType: Option<string>,
                  known: set<string>, alerts: set<string>)
    ensures WhenOk(When(Some(alert), status, None, None), known, alerts) <==>
      if Blank(alert) then status.None? || Blank(status.value) else alert in alerts
    ensures WhenOk(When(None, None, Some(variable), updateType), known, alerts) <==>
      if Blank(variable) then updateType.None? || Blank(updateType.value) else variable in known
    ensures WhenOk(When(None, status, Some(variable), updateType), known, alerts) <==>
      && (status.None? || Blank(status.value))
      && WhenOk(When(None, None, Some(variable), updateType), known, alerts)
    ensures WhenOk(When(Some(alert), status, Some(variable), updateType), known, alerts) <==>
      && WhenOk(When(Some(alert), status, None, None), known, alerts)
      && WhenOk(When(None, None, Some(variable), updateType), known, alerts)
    ensures WhenOk(When(None, None, None, updateType), known, alerts) <==> updateType.None? || Blank(updateType.value)
  {
    assert Blank("");
  }

  /** The trigger has the texts of its own fields. */
  lemma TriggerOf(alert: string, variable: string, status: Option<string>, updateType: Option<string>)
    ensures var t := TransformWhenToTrigger(When(Some(alert), status, None, updateType));
      t == if alert == "" then None else Some(AlertTrigger(alert, if status.Some? then status.value else ""))
    ensures var t := TransformWhenToTrigger(When(None, status, Some(variable), updateType));
      t == if variable == "" then None
           else Some(VariableTrigger(variable, if updateType.Some? then updateType.value else ""))
    ensures alert != "" && variable != "" ==>
      TransformWhenToTrigger(When(Some(alert), status, Some(variable), updateType)) == None
    ensures TransformWhenToTrigger(When(None, status, None, updateType)) == None
  {
  }

  /** An accepted condition translates exactly when the name it gives is not the empty text, which the
      webhook lets pass; and what it translates to names something known if the name is not blank. */
  lemma AcceptedWhenTranslatesIff(w: When, known: set<string>, alerts: set<string>)
    requires WhenOk(w, known, alerts) && OneVariant(w)
    ensures TransformWhenToTrigger(w).Some? <==> Deref(w.alertName) != "" || Deref(w.variableUpdated) != ""
    ensures Given(w.alertName) || Given(w.variableUpdated) ==>
      TransformWhenToTrigger(w).Some? && NamesKnown(TransformWhenToTrigger(w).value, known, alerts)
  {
  }

  /** A blank name gets through both: the rule then waits for an alert that no hub defines. */
  lemma BlankNameGetsThrough(known: set<string>, alerts: set<string>)
    requires " " !in alerts
    ensures var w := When(Some(" "), None, None, None);
      && OneVariant(w) && WhenOk(w, known, alerts)
      && TransformWhenToTrigger(w) == Some(AlertTrigger(" ", "")) &&
        !NamesKnown(TransformWhenToTrigger(w).value, known, alerts)
  {
  }
}
