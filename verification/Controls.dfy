/** A plugin's desired control state and the rules by which it may change. */
module Controls {
  import opened Subscriptions

  /** wellFormed stands for the JSON validity of data. */
  datatype Config = Config(revision: nat, data: string, wellFormed: bool)

  predicate ConfigValid(c: Config) {
    c.data == "" || (c.revision > 0 && c.wellFormed)
  }

  datatype ControlState = ControlState(active: bool, config: Config, subscription: Subscription)

  datatype ControlError =
    | InvalidConfig | ConfigRevisionRegression | ConfigRevisionConflict
    | InvalidSubscription | SubscriptionGenerationRegression | SubscriptionGenerationConflict
    | ControlBackpressure | InvalidState | ManagerClosed | ContextDone | Failure(code: nat)

  /** The result of applying a control: a changed state, no change, or a refusal. */
  datatype Applied = Changed(next: ControlState) | Unchanged | Refused(error: ControlError)

  function ApplyConfig(s: ControlState, next: Config): Applied {
    if !ConfigValid(next) then Refused(InvalidConfig)
    else if next.revision < s.config.revision then Refused(ConfigRevisionRegression)
    else if next.revision == s.config.revision then
      if next.data == s.config.data then Unchanged else Refused(ConfigRevisionConflict)
    else Changed(s.(config := next))
  }

  function ApplySubscription(s: ControlState, next: Subscription): Applied {
    if !Accepts(next, s.active) then Refused(InvalidSubscription)
    else if next.generation < s.subscription.generation then Refused(SubscriptionGenerationRegression)
    else if next.generation == s.subscription.generation then
      if next == s.subscription then Unchanged else Refused(SubscriptionGenerationConflict)
    else Changed(s.(subscription := next))
  }

  function ApplyActive(s: ControlState, next: bool): Applied {
    if s.active == next then Unchanged else Changed(s.(active := next))
  }

  /** One accepted control and its effect on the desired state. */
  datatype Update = SetConfig(config: Config) | SetSubscription(subscription: Subscription) | SetActive(active: bool)

  function Apply(s: ControlState, u: Update): ControlState {
    match u
    case SetConfig(c) => s.(config := c)
    case SetSubscription(sub) => s.(subscription := sub)
    case SetActive(a) => s.(active := a)
  }

  function Fold(initial: ControlState, updates: seq<Update>): ControlState {
    if updates == [] then initial
    else Apply(Fold(initial, updates[..|updates| - 1]), updates[|updates| - 1])
  }

  lemma FoldAppend(initial: ControlState, updates: seq<Update>, u: Update)
    ensures Fold(initial, updates + [u]) == Apply(Fold(initial, updates), u)
  {
    assert (updates + [u])[..|updates|] == updates;
  }

  /** next is never behind s: neither the config revision nor the subscription generation moves back. */
  predicate NotBehind(s: ControlState, next: ControlState) {
    s.config.revision <= next.config.revision && s.subscription.generation <= next.subscription.generation
  }

  /** Every accepted configuration or subscription is strictly newer; equal contents are never re-applied. */
  lemma ChangesAreNewer(s: ControlState, c: Config, sub: Subscription)
    ensures ApplyConfig(s, c).Changed? ==>
              ApplyConfig(s, c).next == Apply(s, SetConfig(c)) && c.revision > s.config.revision && ConfigValid(c)
    ensures ApplySubscription(s, sub).Changed? ==>
              ApplySubscription(s, sub).next == Apply(s, SetSubscription(sub))
              && sub.generation > s.subscription.generation && Accepts(sub, s.active)
  {
  }

  /** What becomes of a configuration: newer ones change it, the same again does not, and anything else is refused for a reason. */
  lemma ConfigurationExactly(s: ControlState, c: Config)
    ensures ApplyConfig(s, c) == Changed(Apply(s, SetConfig(c))) <==> ConfigValid(c) && c.revision > s.config.revision
    ensures ApplyConfig(s, c) == Unchanged <==> ConfigValid(c) && c.revision == s.config.revision && c.data == s.config.data
    ensures ApplyConfig(s, c) == Refused(InvalidConfig) <==> c.data != "" && (c.revision == 0 || !c.wellFormed)
    ensures ApplyConfig(s, c) == Refused(ConfigRevisionRegression) <==> ConfigValid(c) && c.revision < s.config.revision
    ensures ApplyConfig(s, c) == Refused(ConfigRevisionConflict) <==>
              ConfigValid(c) && c.revision == s.config.revision && c.data != s.config.data
  {
  }

  lemma SubscriptionExactly(s: ControlState, sub: Subscription)
    ensures ApplySubscription(s, sub) == Changed(Apply(s, SetSubscription(sub))) <==>
              Accepts(sub, s.active) && sub.generation > s.subscription.generation
    ensures ApplySubscription(s, sub) == Unchanged <==> Accepts(sub, s.active) && sub == s.subscription
    ensures ApplySubscription(s, sub) == Refused(InvalidSubscription) <==> !Accepts(sub, s.active)
    ensures ApplySubscription(s, sub) == Refused(SubscriptionGenerationRegression) <==>
              Accepts(sub, s.active) && sub.generation < s.subscription.generation
    ensures ApplySubscription(s, sub) == Refused(SubscriptionGenerationConflict) <==>
              Accepts(sub, s.active) && sub.generation == s.subscription.generation && sub != s.subscription
  {
  }
}
