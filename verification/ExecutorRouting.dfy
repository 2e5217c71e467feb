/**
 * Resolving an action to a registered executor, and what later registrations can do to
 * an action that already has one.
 */
module ExecutorRouting {
  import opened Common
  import opened Text
  import opened JsonValues
  import opened ExecutorRegistry

  // ----- Resolution -----

  datatype Action = Action(kind: string, role: Option<string>, payload: map<string, Json>, metadata: map<string, Json>)

  /** A routing wish: not expressed, expressed unusably, or expressed. */
  datatype Wish<T> = Unstated | Unusable | Stated(value: T)

  function Mention(a: Action, key: string): Option<Json> {
    if key in a.payload then Some(a.payload[key])
    else if key in a.metadata then Some(a.metadata[key])
    else None
  }

  function TextWish(fold: CaseFold, mention: Option<Json>): Wish<string> {
    if mention.None? then Unstated
    else if Normal(fold, mention.value) == "" then Unusable
    else Stated(Normal(fold, mention.value))
  }

  function Stripped(value: Json): string {
    if value.Str? then Strip(value.text) else ""
  }

  function AccountWish(mention: Option<Json>): Wish<Account> {
    if mention.None? then Unstated
    else if !mention.value.Obj? then Unusable
    else
      var identifier := Stripped(Field(mention.value.fields, "account_identifier"));
      var principal := Field(mention.value.fields, "principal");
      if !principal.Null? && Stripped(principal) == "" then Unusable
      else if identifier == "" then Unusable
      else Stated(Account(if principal.Null? then None else Some(Stripped(principal)), identifier))
  }

  /** The route an action asks for. */
  datatype Query = Query(role: string, capability: string, provider: Option<string>, account: Option<Account>)

  datatype Refusal =
    | MissingRole
    | InvalidCapability
    | InvalidProvider
    | InvalidAccount
    | NoHandler
    | AmbiguousRoute
    | MissingAccount

  function QueryOf(fold: CaseFold, a: Action): Result<Query, Refusal> {
    var role := if a.role.None? then "" else Strip(a.role.value);
    var capability := TextWish(fold, Mention(a, "capability"));
    var provider := TextWish(fold, Mention(a, "capability_provider"));
    var account := AccountWish(Mention(a, "account_context"));
    if role == "" then Err(MissingRole)
    else if capability.Unusable? then Err(InvalidCapability)
    else if provider.Unusable? then Err(InvalidProvider)
    else if account.Unusable? then Err(InvalidAccount)
    else
      var wanted := if capability.Stated? then capability.value else fold(Strip(a.kind));
      if wanted == "" then Err(NoHandler)
      else
        Ok(Query(
          role, wanted,
          if provider.Stated? then Some(provider.value) else None,
          if account.Stated? then Some(account.value) else None))
  }

  predicate Serves(r: Registration, q: Query) {
    && r.capability.role == q.role
    && r.capability.identifier == q.capability
    && (q.provider.None? || r.capability.provider == q.provider.value)
  }

  function Matches(m: Registrations, q: Query): set<RouteKey> {
    set k | k in m && Serves(m[k], q) && m[k].account == q.account
  }

  predicate HasAccountRoutes(m: Registrations, q: Query) {
    exists k :: k in m && Serves(m[k], q) && m[k].account.Some?
  }

  /** Where an action goes: to one registration, or to the fallback for a stated reason. */
  datatype Resolution = Routed(registration: Registration) | Fallback(reason: Refusal)

  function Route(m: Registrations, q: Query): Resolution {
    var matches := Matches(m, q);
    if |matches| == 1 then
      TheOne(matches);
      var k :| k in matches;
      Routed(m[k])
    else if |matches| > 1 then Fallback(AmbiguousRoute)
    else if q.account.None? && HasAccountRoutes(m, q) then Fallback(MissingAccount)
    else Fallback(NoHandler)
  }

  function Resolve(fold: CaseFold, m: Registrations, a: Action): Resolution {
    match QueryOf(fold, a)
    case Err(reason) => Fallback(reason)
    case Ok(q) => Route(m, q)
  }

  // ----- What an action asks for -----

  /** What an action says under a key: its payload decides, and only where it is silent its metadata. */
  predicate Says(a: Action, key: string, value: Json) {
    if key in a.payload then value == a.payload[key] else key in a.metadata && value == a.metadata[key]
  }

  predicate Silent(a: Action, key: string) {
    key !in a.payload && key !in a.metadata
  }

  /** The text a value comes down to when it names a capability or a provider. */
  predicate Names(fold: CaseFold, value: Json, name: string) {
    value.Str? && name == fold(Strip(value.text)) && name != ""
  }

  predicate NamesAccount(value: Json, account: Account) {
    && value.Obj?
    && "account_identifier" in value.fields && value.fields["account_identifier"].Str?
    && account.identifier == Strip(value.fields["account_identifier"].text) && account.identifier != ""
    && (if "principal" !in value.fields || value.fields["principal"].Null? then account.principal == None
        else
          && value.fields["principal"].Str? && Strip(value.fields["principal"].text) != ""
          && account.principal == Some(Strip(value.fields["principal"].text)))
  }

  lemma MentionSays(a: Action, key: string)
    ensures Mention(a, key).None? <==> Silent(a, key)
    ensures Mention(a, key).Some? ==> Says(a, key, Mention(a, key).value)
    ensures forall value :: !Silent(a, key) && Says(a, key, value) ==> Mention(a, key) == Some(value)
  {
  }

  lemma TextWishExactly(fold: CaseFold, value: Json, name: string)
    ensures TextWish(fold, None) == Unstated
    ensures TextWish(fold, Some(value)) == Stated(name) <==> Names(fold, value, name)
    ensures TextWish(fold, Some(value)) != Unstated
  {
  }

  lemma AccountWishExactly(value: Json, account: Account)
    ensures AccountWish(None) == Unstated
    ensures AccountWish(Some(value)) == Stated(account) <==> NamesAccount(value, account)
    ensures AccountWish(Some(value)) != Unstated
  {
  }

  /**
   The route an action asks for: its own role, the capability it names or else its type, and the
   provider and account it names, if any. A payload entry decides alone, usable or not.
   */
  lemma AsksExactly(fold: CaseFold, a: Action, q: Query)
    ensures QueryOf(fold, a) == Ok(q) <==>
      && a.role.Some? && q.role == Strip(a.role.value) && q.role != ""
      && (if Silent(a, "capability") then q.capability == fold(Strip(a.kind)) && q.capability != ""
          else exists v :: Says(a, "capability", v) && Names(fold, v, q.capability))
      && (if Silent(a, "capability_provider") then q.provider == None
          else q.provider.Some? && exists v :: Says(a, "capability_provider", v) && Names(fold, v, q.provider.value))
      && (if Silent(a, "account_context") then q.account == None
          else q.account.Some? && exists v :: Says(a, "account_context", v) && NamesAccount(v, q.account.value))
  {
    MentionSays(a, "capability");
    MentionSays(a, "capability_provider");
    MentionSays(a, "account_context");
    if !Silent(a, "capability") {
      TextWishExactly(fold, Mention(a, "capability").value, q.capability);
    }
    if !Silent(a, "capability_provider") && q.provider.Some? {
      TextWishExactly(fold, Mention(a, "capability_provider").value, q.provider.value);
    }
    if !Silent(a, "account_context") && q.account.Some? {
      AccountWishExactly(Mention(a, "account_context").value, q.account.value);
    }
  }

  /** The first thing wrong with an action's wishes is what it is refused for. */
  lemma RefusalsInOrder(fold: CaseFold, a: Action)
    ensures
      var role := a.role.Some? && Strip(a.role.value) != "";
      var capability := TextWish(fold, Mention(a, "capability")) != Unusable;
      var provider := TextWish(fold, Mention(a, "capability_provider")) != Unusable;
      var account := AccountWish(Mention(a, "account_context")) != Unusable;
      && (QueryOf(fold, a) == Err(MissingRole) <==> !role)
      && (QueryOf(fold, a) == Err(InvalidCapability) <==> role && !capability)
      && (QueryOf(fold, a) == Err(InvalidProvider) <==> role && capability && !provider)
      && (QueryOf(fold, a) == Err(InvalidAccount) <==> role && capability && provider && !account)
      && (QueryOf(fold, a) == Err(NoHandler) <==>
            role && capability && provider && account && Silent(a, "capability") && fold(Strip(a.kind)) == "")
  {
  }

  /** A registration matches when role, capability, provider (if asked for) and the whole account agree. */
  lemma MatchesExactly(m: Registrations, q: Query, k: RouteKey)
    ensures k in Matches(m, q) <==>
      && k in m && m[k].capability.role == q.role && m[k].capability.identifier == q.capability
      && (q.provider.Some? ==> m[k].capability.provider == q.provider.value) && m[k].account == q.account
  {
  }

  /** Some account has a registration for what is asked. */
  predicate AccountWouldHelp(m: Registrations, q: Query) {
    exists k :: (
      && k in m && m[k].capability.role == q.role && m[k].capability.identifier == q.capability
      && (q.provider.Some? ==> m[k].capability.provider == q.provider.value) && m[k].account.Some?)
  }

  /** Without a match: an account is asked for exactly when one would have helped and none was named. */
  lemma UnroutedReasons(m: Registrations, q: Query)
    requires forall k :: k !in Matches(m, q)
    ensures Route(m, q) == Fallback(if q.account.None? && AccountWouldHelp(m, q) then MissingAccount else NoHandler)
  {
    assert Matches(m, q) == {};
    assert HasAccountRoutes(m, q) <==> AccountWouldHelp(m, q);
  }

  lemma TheOne<T>(s: set<T>)
    requires |s| == 1
    ensures exists x :: x in s
    ensures forall x, y :: x in s && y in s ==> x == y
  {
    var x :| x in s;
    forall y | y in s
      ensures y == x
    {
      if y != x {
        SubsetSize({x, y}, s);
      }
    }
  }

  /** An action is routed to a registration exactly when that is the only one that matches. */
  lemma RoutedExactly(m: Registrations, q: Query)
    ensures Route(m, q).Routed? <==> exists k :: k in m && Matches(m, q) == {k}
    ensures forall k :: k in m && Matches(m, q) == {k} ==> Route(m, q) == Routed(m[k])
  {
    var matches := Matches(m, q);
    if |matches| == 1 {
      TheOne(matches);
      var k :| k in matches;
      assert matches == {k};
    }
  }

  lemma MatchesGrow(m: Registrations, m': Registrations, q: Query)
    requires Grows(m, m')
    ensures Matches(m, q) <= Matches(m', q)
    ensures |Matches(m, q)| <= |Matches(m', q)|
    ensures HasAccountRoutes(m, q) ==> HasAccountRoutes(m', q)
  {
    SubsetSize(Matches(m, q), Matches(m', q));
  }

  /**
   * Routing is monotone: what later registrations do to a routed action is make it
   * ambiguous or leave it alone, never redirect it; ambiguous stays ambiguous.
   */
  lemma RoutingIsMonotone(m: Registrations, m': Registrations, q: Query)
    requires Grows(m, m')
    ensures Route(m, q).Routed? ==>
      Route(m', q) == if |Matches(m', q)| == 1 then Route(m, q) else Fallback(AmbiguousRoute)
    ensures Route(m, q) == Fallback(AmbiguousRoute) ==> Route(m', q) == Fallback(AmbiguousRoute)
    ensures Route(m, q) == Fallback(MissingAccount) ==> Route(m', q) != Fallback(NoHandler)
  {
    MatchesGrow(m, m', q);
    var before, after := Matches(m, q), Matches(m', q);
    if |before| == 1 && |after| == 1 {
      TheOne(before);
      TheOne(after);
      assert after == before;
    }
  }

  /** With an explicit provider the key leaves room for one match only. */
  lemma ExplicitProviderMatchesOnce(m: Registrations, q: Query)
    requires Keyed(m) && q.provider.Some?
    ensures |Matches(m, q)| <= 1
    ensures Route(m, q) != Fallback(AmbiguousRoute)
  {
    var k := RouteKey(q.role, q.capability, q.provider.value, AccountName(q.account));
    assert Matches(m, q) <= {k};
    SubsetSize(Matches(m, q), {k});
  }

  /** So a route with an explicit provider, once there, is permanent. */
  lemma ExplicitRouteIsPermanent(m: Registrations, m': Registrations, q: Query)
    requires Keyed(m') && Grows(m, m') && q.provider.Some?
    requires Route(m, q).Routed?
    ensures Route(m', q) == Route(m, q)
  {
    MatchesGrow(m, m', q);
    ExplicitProviderMatchesOnce(m', q);
    RoutingIsMonotone(m, m', q);
  }

  // ----- Whole histories -----

  datatype Offer =
    | OfferManifest(manifest: Manifest)
    | OfferCapabilities(capabilities: seq<Capability>, executor: Executor, account: Option<Account>)

  function Take(fold: CaseFold, m: Registrations, offer: Offer): Registrations {
    match offer
    case OfferManifest(manifest) => AddManifest(fold, m, manifest)
    case OfferCapabilities(cs, e, account) =>
      if account.Some? && NormalAccount(account).None? then m else AddEach(m, cs, e, NormalAccount(account)).0
  }

  function After(fold: CaseFold, offers: seq<Offer>): Registrations {
    if offers == [] then map[] else Take(fold, After(fold, offers[..|offers| - 1]), offers[|offers| - 1])
  }

  lemma {:induction false} HistoriesGrow(fold: CaseFold, offers: seq<Offer>, n: nat)
    requires n <= |offers|
    ensures Keyed(After(fold, offers)) && Keyed(After(fold, offers[..n]))
    ensures Grows(After(fold, offers[..n]), After(fold, offers))
    decreases |offers|
  {
    if offers == [] {
      assert offers[..n] == offers;
    } else {
      var k := |offers| - 1;
      HistoriesGrow(fold, offers[..k], if n <= k then n else k);
      TakeGrows(fold, After(fold, offers[..k]), offers[k]);
      if n <= k {
        assert offers[..k][..n] == offers[..n];
      } else {
        assert offers[..n] == offers;
      }
    }
  }

  lemma TakeGrows(fold: CaseFold, m: Registrations, offer: Offer)
    requires Keyed(m)
    ensures Keyed(Take(fold, m, offer)) && Grows(m, Take(fold, m, offer))
  {
    match offer
    case OfferManifest(manifest) => ManifestIsAtomic(fold, m, manifest);
    case OfferCapabilities(cs, e, account) => AddEachGrows(m, cs, e, NormalAccount(account));
  }

  function AccountOf(offer: Offer): Option<Account> {
    if offer.OfferManifest? then offer.manifest.account else offer.account
  }

  /**
   * What an offer adds is registered under its own account, names stripped, and without one
   * only if it named none; an offer whose account has a blank name adds nothing.
   */
  lemma OffersKeepTheirAccount(fold: CaseFold, m: Registrations, offer: Offer)
    ensures
      var account, m' := AccountOf(offer), Take(fold, m, offer);
      && (!UsableAccount(account) ==> m' == m)
      && (forall k :: k in m' && k !in m ==>
            && (account.None? <==> m'[k].account.None?)
            && (account.Some? ==> m'[k].account.value.identifier == Strip(account.value.identifier)))
  {
    var account := AccountOf(offer);
    if account.Some? {
      AccountsExactly(account.value);
    }
    match offer
    case OfferManifest(manifest) =>
      if Admissible(fold, m, manifest) {
        AddEachAccounts(m, Declared(manifest.capabilities), manifest.executor, NormalAccount(account));
      }
    case OfferCapabilities(cs, e, _) => AddEachAccounts(m, cs, e, NormalAccount(account));
  }

  /** Capabilities offered with a usable account and with distinct free routes are all registered. */
  lemma OffersAreTaken(fold: CaseFold, m: Registrations, cs: seq<Capability>, e: Executor, account: Option<Account>)
    requires UsableAccount(account) && Free(m, cs, NormalAccount(account)) && DistinctCapabilities(cs)
    ensures Holds(m, cs, e, NormalAccount(account), Take(fold, m, OfferCapabilities(cs, e, account)))
  {
    if account.Some? {
      AccountsExactly(account.value);
    }
    AddEachSucceeds(m, cs, e, NormalAccount(account));
  }

  /**
   * Over any history of offers, accepted or refused: an action routed at some point is
   * later routed to the same registration or found ambiguous, and the latter never when
   * it names its provider.
   */
  lemma ActionsAreNeverRedirected(fold: CaseFold, offers: seq<Offer>, n: nat, a: Action)
    requires n <= |offers| && Resolve(fold, After(fold, offers[..n]), a).Routed?
    ensures
      var early, late := Resolve(fold, After(fold, offers[..n]), a), Resolve(fold, After(fold, offers), a);
      && (late == early || late == Fallback(AmbiguousRoute))
      && (Mention(a, "capability_provider").Some? ==> late == early)
  {
    HistoriesGrow(fold, offers, n);
    NeverRedirected(fold, After(fold, offers[..n]), After(fold, offers), a);
  }

  lemma NeverRedirected(fold: CaseFold, m: Registrations, m': Registrations, a: Action)
    requires Keyed(m') && Grows(m, m') && Resolve(fold, m, a).Routed?
    ensures Resolve(fold, m', a) == Resolve(fold, m, a) || Resolve(fold, m', a) == Fallback(AmbiguousRoute)
    ensures Mention(a, "capability_provider").Some? ==> Resolve(fold, m', a) == Resolve(fold, m, a)
  {
    var q := QueryOf(fold, a).value;
    RoutingIsMonotone(m, m', q);
    if q.provider.Some? {
      ExplicitRouteIsPermanent(m, m', q);
    }
  }
}
