/**
 * The action requested for one invocation (src/Action.php): a value object
 * that holds one member of a closed vocabulary, fixed at construction.
 *
 * The held value is a PHP value, as in the source: the constructor stores its
 * argument (or "handle" when the argument is falsy) and then rejects it unless
 * it is one of the six vocabulary strings. Being a datatype value, an Action
 * can never change after it is built.
 */
module Actions {
  import opened Php

  const ValidActionNames: seq<string> := ["set", "unset", "reset", "handle", "cron", "webhookinfo"]

  /** `Action::getValidActions()` */
  function GetValidActions(): (r: Value)
    ensures r.List? && |r.items| == 6
    ensures forall v :: v in r.items <==> v.Str? && v.s in ValidActionNames
  {
    var r := StrList(ValidActionNames);
    forall v ensures v in r.items <==> v.Str? && v.s in ValidActionNames {
      InStrList(ValidActionNames, v);
    }
    r
  }

  datatype Action = Action(action: Value)
  {
    /** `isAction($actions)`: `in_array($this->action, (array) $actions, true)`. */
    predicate IsAction(actions: Value)
      ensures actions.Null? ==> !IsAction(actions)
      ensures actions.List? ==> (IsAction(actions) <==> action in actions.items)
      ensures actions.Map? ==> (IsAction(actions) <==> exists k :: k in actions.entries && actions.entries[k] == action)
      ensures !actions.Null? && !actions.IsArray() ==> (IsAction(actions) <==> action == actions)
    {
      InArrayStrict(action, actions)
    }

    /** The construction invariant: the held value is one of the valid actions. */
    predicate Valid()
    {
      IsAction(GetValidActions())
    }

    /** `getAction()` */
    function GetAction(): (name: string)
      requires Valid()
      ensures name in ValidActionNames && action == Str(name)
    {
      action.s
    }
  }

  /**
   * `new Action($action)`: a falsy argument (null, false, 0, "", "0", []) stands
   * for "handle"; anything else must be one of the vocabulary strings, or
   * construction fails with "Invalid action: " followed by the value.
   */
  function New(raw: Value): (r: Result<Action>)
    ensures r.Ok? ==> r.value.Valid()
    ensures r.Ok? <==> !Truthy(raw) || (raw.Str? && raw.s in ValidActionNames)
    ensures r.Ok? && !Truthy(raw) ==> r.value.GetAction() == "handle"
    ensures r.Ok? && Truthy(raw) ==> r.value.action == raw
    ensures r.Err? ==> r.error == Error(InvalidActionException, "Invalid action: " + ToStr(raw))
  {
    var a := Action(Elvis(raw, Str("handle")));
    if !a.IsAction(GetValidActions()) then
      Err(Error(InvalidActionException, "Invalid action: " + ToStr(a.action)))
    else
      Ok(a)
  }

  /** Each of the six names builds an action that reports that same name. */
  lemma NewFromName(name: string)
    requires name in ValidActionNames
    ensures New(Str(name)).Ok? && New(Str(name)).value.GetAction() == name
  {
  }

  /** `isAction` on a lone value treats it as a one-element list. */
  lemma LoneCandidate(a: Action, c: Value)
    requires !c.Null? && !c.IsArray()
    ensures a.IsAction(c) == a.IsAction(List([c]))
  {
  }

  /**
   * A valid action matches a list of candidates exactly when one of them is a
   * string strictly equal to it; no null, boolean or integer ever matches.
   */
  lemma IsActionMeansSameString(a: Action, candidates: seq<Value>)
    requires a.Valid()
    ensures a.IsAction(List(candidates)) <==>
      exists i :: 0 <= i < |candidates| && candidates[i].Str? && candidates[i].s == a.GetAction()
  {
    if a.IsAction(List(candidates)) {
      var i :| 0 <= i < |candidates| && candidates[i] == a.action;
      assert candidates[i].Str? && candidates[i].s == a.GetAction();
    }
  }

  /** A valid action is one of a list of names exactly when its own name is among them. */
  lemma IsActionOfNames(a: Action, names: seq<string>)
    requires a.Valid()
    ensures a.IsAction(StrList(names)) <==> a.GetAction() in names
  {
    InStrList(names, a.action);
  }

  /** The values tried in the tests: null, true, 1 and an unknown name never match. */
  lemma NonStringCandidatesNeverMatch(a: Action, n: int, b: bool, unknown: string)
    requires a.Valid()
    requires unknown !in ValidActionNames
    ensures !a.IsAction(Null) && !a.IsAction(Bool(b)) && !a.IsAction(Int(n))
    ensures !a.IsAction(Str(unknown))
  {
  }

  /** Every action that could be built matches the whole vocabulary. */
  lemma ConstructedMatchesAll(raw: Value)
    requires New(raw).Ok?
    ensures New(raw).value.IsAction(GetValidActions())
    ensures New(raw).value.GetAction() in ValidActionNames
  {
  }
}
