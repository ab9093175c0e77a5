/**
 The states the extension can reach. Storage starts empty, and every change
 to it comes from one of the actions below. The name index never holds a
 name twice in a reachable state. That is the hypothesis under which reading
 back after a save is an upsert of the environment list.
 */
module Reachability {
  import opened Optional
  import opened Types
  import opened ClientCredentials
  import opened Storage
  import opened Commands
  import opened StorageProperties

  /** One user action that writes to storage. */
  datatype Action =
    | Save(env: Environment)                                  // the configuration panel saves an environment
    | SetCurrent(name: string)                                // the configuration panel makes an environment current
    | Select(pick: Option<nat>)                               // the "select environment" command
    | Sweep(now: int)                                         // viewing the stored tokens drops the expired ones
    | Generate(now: int, post: Transport, pick: Option<nat>)  // the "generate token" command

  /** The state after one action. */
  function Apply(s: Store, json: Json, a: Action): Store {
    match a
    case Save(env) => SaveEnvironment(s, json, env)
    case SetCurrent(name) => SetCurrentEnvironment(s, name)
    case Select(pick) => PickEnvironment(s, json, pick)
    case Sweep(now) => RemoveExpiredTokens(s, now)
    case Generate(now, post, pick) => GenerateToken(s, json, now, post, pick).store
  }

  /** The state after a sequence of actions, applied in order. */
  function Run(s: Store, json: Json, actions: seq<Action>): Store
    decreases |actions|
  {
    if |actions| == 0 then s else Run(Apply(s, json, actions[0]), json, actions[1..])
  }

  /** Every action keeps the name index free of duplicates. */
  lemma ApplyKeepsDistinct(s: Store, json: Json, a: Action)
    requires Distinct(s.names)
    ensures Distinct(Apply(s, json, a).names)
  {
    if a.Save? {
      SaveKeepsDistinct(s, json, a.env);
    }
  }

  /** So does every sequence of actions. */
  lemma {:induction false} RunKeepsDistinct(s: Store, json: Json, actions: seq<Action>)
    requires Distinct(s.names)
    ensures Distinct(Run(s, json, actions).names)
    decreases |actions|
  {
    if |actions| > 0 {
      ApplyKeepsDistinct(s, json, actions[0]);
      RunKeepsDistinct(Apply(s, json, actions[0]), json, actions[1..]);
    }
  }

  /**
   In every state reachable from empty storage, saving an environment whose
   credentials survive the JSON round trip and reading the list back gives
   the old list with that environment upserted.
   */
  lemma ReachableSaveIsUpsert(json: Json, actions: seq<Action>, env: Environment)
    requires RoundTrips(json, env.credentials)
    ensures var s := Run(Empty, json, actions);
      GetEnvironments(SaveEnvironment(s, json, env), json) == Upsert(GetEnvironments(s, json), env)
  {
    RunKeepsDistinct(Empty, json, actions);
    GetAfterSaveIsUpsert(Run(Empty, json, actions), json, env);
  }
}
