/**
 * Routing actions to worker executors: what providers declare, how manifests enter the
 * registry, and which executor an action resolves to.
 */
module ExecutorRegistry {
  import opened Common
  import opened Text
  import opened JsonValues

  /** Unicode case folding, left open: nothing below depends on what it does. */
  type CaseFold = string -> string

  const ROLES := {"content_review", "content_summary", "context_preparation", "software_engineering"}

  datatype Capability = Capability(identifier: string, role: string, provider: string)

  datatype Account = Account(principal: Option<string>, identifier: string)

  /** An object offered as an executor, which may not implement the contract. */
  datatype Executor = Executor(name: nat, conforming: bool)

  datatype RouteKey = RouteKey(role: string, identifier: string, provider: string, account: Option<string>)

  datatype Registration = Registration(capability: Capability, executor: Executor, account: Option<Account>)

  type Registrations = map<RouteKey, Registration>

  function Normal(fold: CaseFold, value: Json): string {
    if value.Str? then fold(Strip(value.text)) else ""
  }

  function AccountName(account: Option<Account>): Option<string> {
    if account.None? then None else Some(account.value.identifier)
  }

  function KeyFor(c: Capability, account: Option<Account>): RouteKey {
    RouteKey(c.role, c.identifier, c.provider, AccountName(account))
  }

  /** Strips an account's names; no account is left when one of them is blank. */
  function NormalAccount(account: Option<Account>): Option<Account> {
    if account.None? then None
    else
      var identifier := Strip(account.value.identifier);
      var principal := account.value.principal;
      if identifier == "" || (principal.Some? && Strip(principal.value) == "") then None
      else Some(Account(if principal.None? then None else Some(Strip(principal.value)), identifier))
  }

  /** Normalising an account again changes nothing. */
  lemma NormalAccountTwice(account: Option<Account>)
    ensures NormalAccount(NormalAccount(account)) == NormalAccount(account)
  {
    if account.Some? {
      StripNormalises(account.value.identifier);
      if account.value.principal.Some? {
        StripNormalises(account.value.principal.value);
      }
    }
  }

  // ----- Manifests -----

  /** A provider's declaration; an entry that is not a capability is `None`. */
  datatype Manifest = Manifest(capabilities: seq<Option<Capability>>, executor: Executor, account: Option<Account>)

  datatype Flaw = NotACapability | BadIdentifier | BadProvider | BadRole | DuplicateRoute

  datatype ManifestError =
    | NoCapabilities
    | NotAnExecutor
    | Flawed(index: nat, flaw: Flaw)
    | ManyProviders
    | BadAccount
    | RouteTaken

  function RouteOf(c: Capability): (string, string, string) {
    (c.role, c.identifier, c.provider)
  }

  /** What is wrong with one entry, given the routes declared before it. */
  function FlawOf(fold: CaseFold, entry: Option<Capability>, routes: set<(string, string, string)>): Option<Flaw> {
    if entry.None? then Some(NotACapability)
    else
      var c := entry.value;
      if c.identifier == "" || c.identifier != fold(Strip(c.identifier)) then Some(BadIdentifier)
      else if c.provider == "" || c.provider != fold(Strip(c.provider)) then Some(BadProvider)
      else if c.role !in ROLES then Some(BadRole)
      else if RouteOf(c) in routes then Some(DuplicateRoute)
      else None
  }

  /** The routes and the providers the capabilities among some entries declare. */
  function RoutesOf(entries: seq<Option<Capability>>): set<(string, string, string)> {
    set i | 0 <= i < |entries| && entries[i].Some? :: RouteOf(entries[i].value)
  }

  function ProvidersOf(entries: seq<Option<Capability>>): set<string> {
    set i | 0 <= i < |entries| && entries[i].Some? :: entries[i].value.provider
  }

  /** Every entry is a capability in normal form, with a known role. */
  predicate Normalised(fold: CaseFold, entries: seq<Option<Capability>>) {
    forall i :: 0 <= i < |entries| ==> FlawOf(fold, entries[i], {}).None?
  }

  predicate DistinctRoutes(entries: seq<Option<Capability>>) {
    forall i, j :: 0 <= i < j < |entries| && entries[i].Some? && entries[j].Some? ==>
      RouteOf(entries[i].value) != RouteOf(entries[j].value)
  }

  predicate OneProvider(entries: seq<Option<Capability>>) {
    forall i, j :: 0 <= i < j < |entries| && entries[i].Some? && entries[j].Some? ==>
      entries[i].value.provider == entries[j].value.provider
  }

  /** What a manifest must be, whatever is registered. */
  predicate WellFormed(fold: CaseFold, m: Manifest) {
    && m.capabilities != []
    && m.executor.conforming
    && Normalised(fold, m.capabilities)
    && DistinctRoutes(m.capabilities)
    && OneProvider(m.capabilities)
  }

  /** A capability as a manifest must declare it: normal names and one of the four roles. */
  predicate Declares(fold: CaseFold, c: Capability) {
    && c.identifier != "" && c.identifier == fold(Strip(c.identifier))
    && c.provider != "" && c.provider == fold(Strip(c.provider))
    && c.role in {"content_review", "content_summary", "context_preparation", "software_engineering"}
  }

  /** A manifest is well formed exactly when all its entries are such capabilities, of one provider and no two alike. */
  lemma WellFormedExactly(fold: CaseFold, m: Manifest)
    ensures WellFormed(fold, m) <==>
      && |m.capabilities| > 0 && m.executor.conforming
      && (forall i :: 0 <= i < |m.capabilities| ==>
            m.capabilities[i].Some? && Declares(fold, m.capabilities[i].value))
      && (forall i, j :: 0 <= i < j < |m.capabilities| ==>
            && m.capabilities[i].value != m.capabilities[j].value
            && m.capabilities[i].value.provider == m.capabilities[j].value.provider)
  {
    var cs := m.capabilities;
    if WellFormed(fold, m) {
      forall i, j | 0 <= i < j < |cs|
        ensures cs[i].value != cs[j].value && cs[i].value.provider == cs[j].value.provider
      {
        assert FlawOf(fold, cs[i], {}).None? && FlawOf(fold, cs[j], {}).None?;
        assert RouteOf(cs[i].value) != RouteOf(cs[j].value);
      }
      assert forall i :: 0 <= i < |cs| ==> FlawOf(fold, cs[i], {}).None?;
    }
  }

  /** What is reported about an entry, in the order the checks are made. */
  lemma FlawsInOrder(fold: CaseFold, c: Capability, routes: set<(string, string, string)>)
    ensures FlawOf(fold, None, routes) == Some(NotACapability)
    ensures
      var named := c.identifier != "" && c.identifier == fold(Strip(c.identifier));
      var provided := c.provider != "" && c.provider == fold(Strip(c.provider));
      && (FlawOf(fold, Some(c), routes) == Some(BadIdentifier) <==> !named)
      && (FlawOf(fold, Some(c), routes) == Some(BadProvider) <==> named && !provided)
      && (FlawOf(fold, Some(c), routes) == Some(BadRole) <==> named && provided && !Declares(fold, c))
      && (FlawOf(fold, Some(c), routes) == Some(DuplicateRoute) <==>
            Declares(fold, c) && (c.role, c.identifier, c.provider) in routes)
  {
  }

  /** Two registrations collide exactly when they agree on role, capability, provider and account name. */
  lemma KeysCollideExactly(c: Capability, account: Option<Account>, c': Capability, account': Option<Account>)
    ensures KeyFor(c, account) == KeyFor(c', account') <==>
      && c.role == c'.role && c.identifier == c'.identifier && c.provider == c'.provider
      && account.Some? == account'.Some?
      && (account.Some? ==> account.value.identifier == account'.value.identifier)
  {
  }

  /** An account keeps its names, stripped; one with a blank name is none at all. */
  lemma AccountsExactly(a: Account)
    ensures
      var usable := Strip(a.identifier) != "" && (a.principal.Some? ==> Strip(a.principal.value) != "");
      && (NormalAccount(Some(a)).Some? <==> usable)
      && (usable ==>
        && NormalAccount(Some(a)).value.identifier == Strip(a.identifier)
        && (a.principal.None? ==> NormalAccount(Some(a)).value.principal == None)
        && (a.principal.Some? ==> NormalAccount(Some(a)).value.principal == Some(Strip(a.principal.value))))
  {
  }

  lemma OneProviderExactly(entries: seq<Option<Capability>>)
    requires entries != [] && forall i :: 0 <= i < |entries| ==> entries[i].Some?
    ensures |ProvidersOf(entries)| == 1 <==> OneProvider(entries)
  {
    var providers := ProvidersOf(entries);
    var first := entries[0].value.provider;
    assert first in providers;
    if OneProvider(entries) {
      assert providers == {first};
    } else {
      var i, j :| 0 <= i < j < |entries| && entries[i].value.provider != entries[j].value.provider;
      var p, q := entries[i].value.provider, entries[j].value.provider;
      assert {p, q} <= providers;
      SubsetSize({p, q}, providers);
    }
  }

  lemma {:induction false} SubsetSize<T>(a: set<T>, b: set<T>)
    requires a <= b
    ensures |a| <= |b|
  {
    if a != {} {
      var x :| x in a;
      SubsetSize(a - {x}, b - {x});
    }
  }

  /** Checks a manifest entry by entry and reports the first flaw it meets. */
  method ValidateManifest(fold: CaseFold, m: Manifest) returns (fault: Option<ManifestError>)
    ensures fault.None? <==> WellFormed(fold, m)
    ensures fault.Some? && fault.value.Flawed? ==>
      && fault.value.index < |m.capabilities|
      && Normalised(fold, m.capabilities[..fault.value.index])
      && DistinctRoutes(m.capabilities[..fault.value.index])
      && FlawOf(fold, m.capabilities[fault.value.index], RoutesOf(m.capabilities[..fault.value.index]))
         == Some(fault.value.flaw)
  {
    var entries := m.capabilities;
    if entries == [] {
      return Some(NoCapabilities);
    }
    if !m.executor.conforming {
      return Some(NotAnExecutor);
    }
    var providers: set<string> := {};
    var routes: set<(string, string, string)> := {};
    for k := 0 to |entries|
      invariant routes == RoutesOf(entries[..k]) && providers == ProvidersOf(entries[..k])
      invariant Normalised(fold, entries[..k]) && DistinctRoutes(entries[..k])
    {
      var flaw := FlawOf(fold, entries[k], routes);
      if flaw.Some? {
        FlawSpoils(fold, entries, k);
        return Some(Flawed(k, flaw.value));
      }
      NextEntry(fold, entries, k);
      providers := providers + {entries[k].value.provider};
      routes := routes + {RouteOf(entries[k].value)};
    }
    assert entries[..|entries|] == entries;
    OneProviderExactly(entries);
    if |providers| != 1 {
      return Some(ManyProviders);
    }
    return None;
  }

  lemma FlawSpoils(fold: CaseFold, entries: seq<Option<Capability>>, k: nat)
    requires k < |entries|
    requires FlawOf(fold, entries[k], RoutesOf(entries[..k])).Some?
    ensures !(Normalised(fold, entries) && DistinctRoutes(entries))
  {
    if Normalised(fold, entries) {
      assert FlawOf(fold, entries[k], {}).None?;
      assert RouteOf(entries[k].value) in RoutesOf(entries[..k]);
      var i :| 0 <= i < k && entries[..k][i].Some? && RouteOf(entries[..k][i].value) == RouteOf(entries[k].value);
      assert entries[i] == entries[..k][i];
    }
  }

  lemma NextEntry(fold: CaseFold, entries: seq<Option<Capability>>, k: nat)
    requires k < |entries|
    requires Normalised(fold, entries[..k]) && DistinctRoutes(entries[..k])
    requires FlawOf(fold, entries[k], RoutesOf(entries[..k])).None?
    ensures Normalised(fold, entries[..k + 1]) && DistinctRoutes(entries[..k + 1])
    ensures RoutesOf(entries[..k + 1]) == RoutesOf(entries[..k]) + {RouteOf(entries[k].value)}
    ensures ProvidersOf(entries[..k + 1]) == ProvidersOf(entries[..k]) + {entries[k].value.provider}
  {
    assert entries[..k + 1] == entries[..k] + [entries[k]];
    DeclaredMore(entries[..k], entries[k].value);
    NewRoute(entries[..k], entries[k].value);
  }

  /** One more capability adds its route and its provider. */
  lemma DeclaredMore(entries: seq<Option<Capability>>, c: Capability)
    ensures RoutesOf(entries + [Some(c)]) == RoutesOf(entries) + {RouteOf(c)}
    ensures ProvidersOf(entries + [Some(c)]) == ProvidersOf(entries) + {c.provider}
  {
    var more := entries + [Some(c)];
    assert more[|entries|] == Some(c);
    forall i | 0 <= i < |entries|
      ensures more[i] == entries[i]
    {
    }
    assert forall i :: 0 <= i < |entries| && entries[i].Some? ==> RouteOf(more[i].value) in RoutesOf(more);
    assert forall i :: 0 <= i < |entries| && entries[i].Some? ==> more[i].value.provider in ProvidersOf(more);
  }

  lemma NewRoute(entries: seq<Option<Capability>>, c: Capability)
    requires DistinctRoutes(entries) && RouteOf(c) !in RoutesOf(entries)
    ensures DistinctRoutes(entries + [Some(c)])
  {
    forall i | 0 <= i < |entries| && entries[i].Some?
      ensures RouteOf(entries[i].value) != RouteOf(c)
    {
      assert RouteOf(entries[i].value) in RoutesOf(entries);
    }
  }

  // ----- Registration -----

  /** Every registration sits under its own key, so a key fixes role, capability, provider and account. */
  predicate Keyed(m: Registrations) {
    forall k :: k in m ==> k == KeyFor(m[k].capability, m[k].account)
  }

  /** The registrations after adding capabilities in turn, up to the first key already taken. */
  function AddEach(m: Registrations, cs: seq<Capability>, e: Executor, account: Option<Account>): (Registrations, bool)
    decreases |cs|
  {
    if cs == [] then (m, true)
    else
      var before := AddEach(m, cs[..|cs| - 1], e, account);
      var c := cs[|cs| - 1];
      if !before.1 || KeyFor(c, account) in before.0 then (before.0, false)
      else (before.0[KeyFor(c, account) := Registration(c, e, account)], true)
  }

  predicate Grows(m: Registrations, m': Registrations) {
    forall k :: k in m ==> k in m' && m'[k] == m[k]
  }

  lemma {:induction false} AddEachGrows(m: Registrations, cs: seq<Capability>, e: Executor, account: Option<Account>)
    requires Keyed(m)
    ensures Keyed(AddEach(m, cs, e, account).0) && Grows(m, AddEach(m, cs, e, account).0)
  {
    if cs != [] {
      AddEachGrows(m, cs[..|cs| - 1], e, account);
    }
  }

  /** A failure leaves what was added before it: a later attempt starts from there. */
  lemma {:induction false} AddEachStops(m: Registrations, cs: seq<Capability>, k: nat, e: Executor, account: Option<Account>)
    requires k <= |cs| && !AddEach(m, cs[..k], e, account).1
    ensures AddEach(m, cs, e, account) == AddEach(m, cs[..k], e, account)
    decreases |cs|
  {
    if k == |cs| {
      assert cs[..k] == cs;
    } else {
      assert cs[..|cs| - 1][..k] == cs[..k];
      AddEachStops(m, cs[..|cs| - 1], k, e, account);
    }
  }

  lemma {:induction false} AddEachAccumulates(m: Registrations, cs: seq<Capability>, k: nat, e: Executor, account: Option<Account>)
    requires k <= |cs|
    ensures Grows(AddEach(m, cs[..k], e, account).0, AddEach(m, cs, e, account).0)
    decreases |cs|
  {
    if k == |cs| {
      assert cs[..k] == cs;
    } else {
      assert cs[..|cs| - 1][..k] == cs[..k];
      AddEachAccumulates(m, cs[..|cs| - 1], k, e, account);
    }
  }

  /**
   * Adding one by one is not atomic: a refused batch leaves the registry as it was exactly
   * when its very first route was already taken.
   */
  lemma RefusedBatchIsCleanExactly(m: Registrations, cs: seq<Capability>, e: Executor, account: Option<Account>)
    requires !AddEach(m, cs, e, account).1
    ensures AddEach(m, cs, e, account).0 == m <==> KeyFor(cs[0], account) in m
  {
    AddOneMore(m, cs, 0, m, e, account);
    if KeyFor(cs[0], account) in m {
      AddEachStops(m, cs, 1, e, account);
    } else {
      AddEachAccumulates(m, cs, 1, e, account);
      assert KeyFor(cs[0], account) in AddEach(m, cs[..1], e, account).0;
    }
  }

  /** A batch that repeats a new route is refused and leaves that route behind. */
  lemma RefusedBatchLeavesItsFirst(m: Registrations, c: Capability, e: Executor, account: Option<Account>)
    requires KeyFor(c, account) !in m
    ensures AddEach(m, [c, c], e, account) == (m[KeyFor(c, account) := Registration(c, e, account)], false)
  {
    assert [c, c][..1] == [c] && [c][..0] == [];
    assert AddEach(m, [c][..0], e, account) == (m, true);
    assert AddEach(m, [c], e, account) == (m[KeyFor(c, account) := Registration(c, e, account)], true);
  }

  predicate Free(m: Registrations, cs: seq<Capability>, account: Option<Account>) {
    forall i :: 0 <= i < |cs| ==> KeyFor(cs[i], account) !in m
  }

  predicate DistinctCapabilities(cs: seq<Capability>) {
    forall i, j :: 0 <= i < j < |cs| ==> RouteOf(cs[i]) != RouteOf(cs[j])
  }

  /** What a registry holds after taking in all of `cs`. */
  predicate Holds(m: Registrations, cs: seq<Capability>, e: Executor, account: Option<Account>, m': Registrations) {
    && (forall i :: 0 <= i < |cs| ==>
          KeyFor(cs[i], account) in m' && m'[KeyFor(cs[i], account)] == Registration(cs[i], e, account))
    && (forall k :: k in m' ==> k in m || exists i :: 0 <= i < |cs| && k == KeyFor(cs[i], account))
  }

  lemma HoldsMore(
      m: Registrations, cs: seq<Capability>, c: Capability, e: Executor, account: Option<Account>, m': Registrations)
    requires Holds(m, cs, e, account, m')
    requires forall i :: 0 <= i < |cs| ==> KeyFor(cs[i], account) != KeyFor(c, account)
    ensures Holds(m, cs + [c], e, account, m'[KeyFor(c, account) := Registration(c, e, account)])
  {
    var more := cs + [c];
    assert more[|cs|] == c;
    forall k | k in m' && k !in m
      ensures exists i :: 0 <= i < |more| && k == KeyFor(more[i], account)
    {
      var i :| 0 <= i < |cs| && k == KeyFor(cs[i], account);
      assert more[i] == cs[i];
    }
  }

  /** Capabilities with distinct free routes are all added, and nothing else is. */
  lemma {:induction false} AddEachSucceeds(m: Registrations, cs: seq<Capability>, e: Executor, account: Option<Account>)
    requires Free(m, cs, account) && DistinctCapabilities(cs)
    ensures AddEach(m, cs, e, account).1
    ensures Holds(m, cs, e, account, AddEach(m, cs, e, account).0)
  {
    if cs != [] {
      var before, c := cs[..|cs| - 1], cs[|cs| - 1];
      assert cs == before + [c];
      forall i | 0 <= i < |before|
        ensures KeyFor(before[i], account) != KeyFor(c, account)
      {
        assert RouteOf(cs[i]) != RouteOf(c);
      }
      AddEachSucceeds(m, before, e, account);
      HoldsMore(m, before, c, e, account, AddEach(m, before, e, account).0);
    }
  }

  function Declared(entries: seq<Option<Capability>>): seq<Capability>
    requires forall i :: 0 <= i < |entries| ==> entries[i].Some?
  {
    seq(|entries|, i requires 0 <= i < |entries| => entries[i].value)
  }

  /** The manifests a registry takes in. */
  predicate Admissible(fold: CaseFold, m: Registrations, manifest: Manifest) {
    && WellFormed(fold, manifest)
    && (manifest.account.Some? ==> NormalAccount(manifest.account).Some?)
    && Free(m, Declared(manifest.capabilities), NormalAccount(manifest.account))
  }

  /** The registrations after offering a manifest: all of it, or nothing. */
  function AddManifest(fold: CaseFold, m: Registrations, manifest: Manifest): Registrations {
    if Admissible(fold, m, manifest) then
      AddEach(m, Declared(manifest.capabilities), manifest.executor, NormalAccount(manifest.account)).0
    else m
  }

  /** Manifest registration is all or nothing, and never disturbs what is registered. */
  lemma ManifestIsAtomic(fold: CaseFold, m: Registrations, manifest: Manifest)
    requires Keyed(m)
    ensures
      var m' := AddManifest(fold, m, manifest);
      && Keyed(m') && Grows(m, m')
      && (if Admissible(fold, m, manifest) then
            Holds(m, Declared(manifest.capabilities), manifest.executor, NormalAccount(manifest.account), m')
          else m' == m)
  {
    if Admissible(fold, m, manifest) {
      var cs := Declared(manifest.capabilities);
      AddEachGrows(m, cs, manifest.executor, NormalAccount(manifest.account));
      AddEachSucceeds(m, cs, manifest.executor, NormalAccount(manifest.account));
    }
  }

  /** No account, or one without a blank name. */
  predicate UsableAccount(account: Option<Account>) {
    account.Some? ==>
      Strip(account.value.identifier) != "" && (account.value.principal.Some? ==> Strip(account.value.principal.value) != "")
  }

  /** A well-formed manifest is taken in exactly when its account is usable and all its routes are free under it. */
  lemma AdmitsExactly(fold: CaseFold, m: Registrations, manifest: Manifest)
    requires WellFormed(fold, manifest)
    ensures Admissible(fold, m, manifest) <==>
      && UsableAccount(manifest.account)
      && forall i :: 0 <= i < |manifest.capabilities| ==>
           KeyFor(manifest.capabilities[i].value, NormalAccount(manifest.account)) !in m
  {
    var cs := Declared(manifest.capabilities);
    assert |cs| == |manifest.capabilities|;
    assert forall i :: 0 <= i < |cs| ==> cs[i] == manifest.capabilities[i].value;
  }

  /** Whatever is added is added under the account it was offered with. */
  lemma {:induction false} AddEachAccounts(m: Registrations, cs: seq<Capability>, e: Executor, account: Option<Account>)
    ensures
      var m' := AddEach(m, cs, e, account).0;
      forall k :: k in m' && k !in m ==> m'[k].account == account && m'[k].executor == e
  {
    if cs != [] {
      AddEachAccounts(m, cs[..|cs| - 1], e, account);
    }
  }

  class WorkerExecutorRegistry {
    const fold: CaseFold
    var registrations: Registrations

    constructor (fold: CaseFold)
      ensures this.fold == fold && registrations == map[]
    {
      this.fold := fold;
      registrations := map[];
    }

    method RegisterCapability(c: Capability, e: Executor, account: Option<Account>) returns (fault: Option<ManifestError>)
      modifies this`registrations
      ensures
        var normal := NormalAccount(account);
        if account.Some? && normal.None? then fault == Some(BadAccount) && registrations == old(registrations)
        else
          && registrations == AddEach(old(registrations), [c], e, normal).0
          && fault == if AddEach(old(registrations), [c], e, normal).1 then None else Some(RouteTaken)
    {
      var normal := NormalAccount(account);
      if account.Some? && normal.None? {
        return Some(BadAccount);
      }
      assert [c][..0] == [];
      assert AddEach(registrations, [c][..0], e, normal) == (registrations, true);
      var key := KeyFor(c, normal);
      if key in registrations {
        return Some(RouteTaken);
      }
      registrations := registrations[key := Registration(c, e, normal)];
      return None;
    }

    /** Registers in turn and stops at the first refusal, keeping what came before it. */
    method RegisterCapabilities(cs: seq<Capability>, e: Executor, account: Option<Account>) returns (fault: Option<ManifestError>)
      modifies this`registrations
      ensures
        var normal := NormalAccount(account);
        if account.Some? && normal.None? then
          fault == (if cs == [] then None else Some(BadAccount)) && registrations == old(registrations)
        else
          && registrations == AddEach(old(registrations), cs, e, normal).0
          && fault == if AddEach(old(registrations), cs, e, normal).1 then None else Some(RouteTaken)
    {
      ghost var normal := NormalAccount(account);
      ghost var start := registrations;
      for k := 0 to |cs|
        invariant account.Some? && normal.None? ==> k == 0 && registrations == start
        invariant !(account.Some? && normal.None?) ==> AddEach(start, cs[..k], e, normal) == (registrations, true)
      {
        AddOneMore(start, cs, k, registrations, e, normal);
        fault := RegisterCapability(cs[k], e, account);
        if fault.Some? {
          if !(account.Some? && normal.None?) {
            AddEachStops(start, cs, k + 1, e, normal);
          }
          return;
        }
      }
      assert cs[..|cs|] == cs;
      return None;
    }

    method RegisterManifest(manifest: Manifest) returns (fault: Option<ManifestError>)
      modifies this`registrations
      ensures registrations == AddManifest(fold, old(registrations), manifest)
      ensures fault.None? <==> Admissible(fold, old(registrations), manifest)
    {
      fault := ValidateManifest(fold, manifest);
      if fault.Some? {
        return;
      }
      var normal := NormalAccount(manifest.account);
      if manifest.account.Some? && normal.None? {
        return Some(BadAccount);
      }
      var cs := Declared(manifest.capabilities);
      if exists i :: 0 <= i < |cs| && KeyFor(cs[i], normal) in registrations {
        return Some(RouteTaken);
      }
      NormalAccountTwice(manifest.account);
      ManifestRoutes(manifest.capabilities);
      AddEachSucceeds(registrations, cs, manifest.executor, normal);
      fault := RegisterCapabilities(cs, manifest.executor, normal);
    }
  }

  lemma AddOneMore(m: Registrations, cs: seq<Capability>, k: nat, now: Registrations, e: Executor, account: Option<Account>)
    requires k < |cs|
    ensures AddEach(m, cs[..k], e, account) == (now, true) ==>
      AddEach(m, cs[..k + 1], e, account) == AddEach(now, [cs[k]], e, account)
  {
    assert cs[..k + 1][..k] == cs[..k];
    assert [cs[k]][..0] == [];
    assert AddEach(now, [cs[k]][..0], e, account) == (now, true);
  }

  lemma ManifestRoutes(entries: seq<Option<Capability>>)
    requires forall i :: 0 <= i < |entries| ==> entries[i].Some?
    requires DistinctRoutes(entries)
    ensures DistinctCapabilities(Declared(entries))
  {
  }
}
