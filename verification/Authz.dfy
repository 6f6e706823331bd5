/** The authorization index and its decisions (internal/authz/authorization_data.go,
  * internal/authz/handler.go, internal/authz/request.go). */
module Authz {
  import opened Optional
  import opened Tables

  type TenantId = string
  type Group = string
  type Role = string
  type Resource = string
  type Action = string

  datatype ResourceActions = ResourceActions(resource: Resource, actions: seq<Action>)

  datatype Policy = Policy(resources: seq<ResourceActions>)

  type RolePolicies = map<Role, seq<Policy>>

  /** What a role's loaded entry says: the tenant and the groups that have the role there. */
  datatype BusinessUser = BusinessUser(tenant: TenantId, groups: seq<Group>)

  datatype Key = Key(tenant: TenantId, group: Group, resource: Resource, action: Action)

  /** Some policy grants the action on the resource. */
  predicate Grants(policies: seq<Policy>, resource: Resource, action: Action) {
    exists p, r :: p in policies && r in p.resources && r.resource == resource && action in r.actions
  }

  // ---- loading a user ----

  function ActionKeys(resource: Resource, action: Action, user: BusinessUser): set<Key> {
    set g | g in user.groups :: Key(user.tenant, g, resource, action)
  }

  function ResourceKeys(r: ResourceActions, user: BusinessUser): set<Key> {
    set a, g | a in r.actions && g in user.groups :: Key(user.tenant, g, r.resource, a)
  }

  function PolicyKeys(p: Policy, user: BusinessUser): set<Key> {
    set r, a, g | r in p.resources && a in r.actions && g in user.groups :: Key(user.tenant, g, r.resource, a)
  }

  function RoleKeys(policies: seq<Policy>, user: BusinessUser): set<Key> {
    set p, r, a, g | p in policies && r in p.resources && a in r.actions && g in user.groups ::
      Key(user.tenant, g, r.resource, a)
  }

  /** How many roles of the iteration order are loaded before an unknown one ends the load. */
  function Known(policies: RolePolicies, order: seq<Role>): (n: nat)
    ensures n <= |order| && (n < |order| ==> order[n] !in policies)
    ensures forall i :: 0 <= i < n ==> order[i] in policies
  {
    if order == [] || order[0] !in policies then 0 else 1 + Known(policies, order[1..])
  }

  /** The keys of the first `n` roles of the iteration order. */
  function UserKeys(policies: RolePolicies, users: map<Role, BusinessUser>, order: seq<Role>, n: nat): set<Key>
    requires n <= |order| && forall i :: 0 <= i < n ==> order[i] in policies
    requires forall r :: r in order ==> r in users
    decreases n
  {
    if n == 0 then {}
    else UserKeys(policies, users, order, n - 1) + RoleKeys(policies[order[n - 1]], users[order[n - 1]])
  }

  class BusinessUserAuthzData {
    const policies: RolePolicies
    var authzKeys: set<Key>

    constructor (policies: RolePolicies)
      ensures this.policies == policies && authzKeys == {}
    {
      this.policies := policies;
      authzKeys := {};
    }

    method InitialiseAuthzKeys()
      modifies this
      ensures authzKeys == {}
    {
      authzKeys := {};
    }

    method AddAction(resource: Resource, action: Action, user: BusinessUser)
      modifies this
      ensures authzKeys == old(authzKeys) + ActionKeys(resource, action, user)
    {
      for i := 0 to |user.groups|
        invariant authzKeys == old(authzKeys) + ActionKeys(resource, action, user.(groups := user.groups[..i]))
      {
        assert user.groups[..i + 1] == user.groups[..i] + [user.groups[i]];
        authzKeys := authzKeys + {Key(user.tenant, user.groups[i], resource, action)};
      }
      assert user.groups[..|user.groups|] == user.groups;
    }

    method AddResource(r: ResourceActions, user: BusinessUser)
      modifies this
      ensures authzKeys == old(authzKeys) + ResourceKeys(r, user)
    {
      for i := 0 to |r.actions|
        invariant authzKeys == old(authzKeys) + ResourceKeys(r.(actions := r.actions[..i]), user)
      {
        assert r.actions[..i + 1] == r.actions[..i] + [r.actions[i]];
        AddAction(r.resource, r.actions[i], user);
      }
      assert r.actions[..|r.actions|] == r.actions;
    }

    method AddPolicy(p: Policy, user: BusinessUser)
      modifies this
      ensures authzKeys == old(authzKeys) + PolicyKeys(p, user)
    {
      for i := 0 to |p.resources|
        invariant authzKeys == old(authzKeys) + PolicyKeys(Policy(p.resources[..i]), user)
      {
        assert p.resources[..i + 1] == p.resources[..i] + [p.resources[i]];
        AddResource(p.resources[i], user);
      }
      assert p.resources[..|p.resources|] == p.resources;
    }

    method AddPolicies(ps: seq<Policy>, user: BusinessUser)
      modifies this
      ensures authzKeys == old(authzKeys) + RoleKeys(ps, user)
    {
      for i := 0 to |ps|
        invariant authzKeys == old(authzKeys) + RoleKeys(ps[..i], user)
      {
        assert ps[..i + 1] == ps[..i] + [ps[i]];
        AddPolicy(ps[i], user);
      }
      assert ps[..|ps|] == ps;
    }

    /** AddUser: `order` is the order in which the map happens to be iterated. */
    method AddUser(users: map<Role, BusinessUser>, order: seq<Role>) returns (ok: bool)
      requires Lists(order, users.Keys)
      modifies this
      ensures ok <==> forall r :: r in users ==> r in policies
      ensures (forall r :: r in order ==> r in users) &&
        authzKeys == old(authzKeys) + UserKeys(policies, users, order, Known(policies, order))
    {
      assert forall r :: r in order <==> r in Elements(order);
      for i := 0 to |order|
        invariant i <= Known(policies, order)
        invariant authzKeys == old(authzKeys) + UserKeys(policies, users, order, i)
      {
        assert order[i] in order;
        if order[i] !in policies { return false; }
        AddPolicies(policies[order[i]], users[order[i]]);
      }
      return true;
    }
  }

  // ---- decisions ----

  datatype UserType = BusinessUserType | InternalUserType

  /** What the request's context carries; a part may be missing. */
  datatype Context = Context(tenant: Option<TenantId>, userType: Option<UserType>)

  datatype BusinessRequest = BusinessRequest(
    tenant: TenantId, userName: string, groups: seq<Group>, resource: Resource, action: Action)

  datatype Decision = Allowed | Denied | Invalid

  /** Request.IsValidContext for a business user. */
  predicate ValidRequest(ctx: Context, r: BusinessRequest) {
    && r.userName != "" && r.groups != []
    && ctx.tenant == Some(r.tenant) && ctx.userType == Some(BusinessUserType)
  }

  /** isValidResourceAction */
  predicate Declared(resourceActions: map<Resource, seq<Action>>, resource: Resource, action: Action) {
    resource in resourceActions && action in resourceActions[resource]
  }

  /** Behind the handler's mutex: invalid requests first, then the requested groups one after the other. */
  method IsBusinessUserAllowed(data: BusinessUserAuthzData, resourceActions: map<Resource, seq<Action>>,
                               ctx: Context, r: BusinessRequest) returns (decision: Decision)
    ensures decision == Decide(data.authzKeys, resourceActions, ctx, r)
  {
    if !ValidRequest(ctx, r) { return Invalid; }
    if !Declared(resourceActions, r.resource, r.action) { return Invalid; }
    for i := 0 to |r.groups|
      invariant forall j :: 0 <= j < i ==> Key(r.tenant, r.groups[j], r.resource, r.action) !in data.authzKeys
    {
      if Key(r.tenant, r.groups[i], r.resource, r.action) in data.authzKeys { return Allowed; }
    }
    return Denied;
  }

  function Decide(keys: set<Key>, resourceActions: map<Resource, seq<Action>>, ctx: Context, r: BusinessRequest)
    : Decision
  {
    if !ValidRequest(ctx, r) || !Declared(resourceActions, r.resource, r.action) then Invalid
    else if exists g :: g in r.groups && Key(r.tenant, g, r.resource, r.action) in keys then Allowed
    else Denied
  }

  // ---- histories of resets and loads ----

  datatype Event = Reset | Load(users: map<Role, BusinessUser>, order: seq<Role>)

  ghost predicate Proper(events: seq<Event>) {
    forall i :: 0 <= i < |events| && events[i].Load? ==> Lists(events[i].order, events[i].users.Keys)
  }

  ghost function After(policies: RolePolicies, keys: set<Key>, e: Event): set<Key>
    requires e.Load? ==> Lists(e.order, e.users.Keys)
  {
    match e
    case Reset => {}
    case Load(users, order) =>
      assert forall r :: r in order ==> r in Elements(order);
      keys + UserKeys(policies, users, order, Known(policies, order))
  }

  ghost function Index(policies: RolePolicies, events: seq<Event>): set<Key>
    requires Proper(events)
  {
    if events == [] then {}
    else After(policies, Index(policies, events[..|events| - 1]), events[|events| - 1])
  }

  /** Role number `k` of a load entitles the holder of the key. */
  predicate Entitles(policies: RolePolicies, e: Event, k: nat, key: Key) {
    && e.Load? && k < Known(policies, e.order) && e.order[k] in e.users
    && var user := e.users[e.order[k]];
       user.tenant == key.tenant && key.group in user.groups && Grants(policies[e.order[k]], key.resource, key.action)
  }

  lemma RoleKeysAre(policies: seq<Policy>, user: BusinessUser, key: Key)
    ensures key in RoleKeys(policies, user) <==>
      key.tenant == user.tenant && key.group in user.groups && Grants(policies, key.resource, key.action)
  {
    if key.tenant == user.tenant && key.group in user.groups && Grants(policies, key.resource, key.action) {
      var p, r :| p in policies && r in p.resources && r.resource == key.resource && key.action in r.actions;
      assert Key(user.tenant, key.group, r.resource, key.action) in RoleKeys(policies, user);
    }
  }

  lemma {:induction false} UserKeysAre(policies: RolePolicies, e: Event, n: nat, key: Key)
    requires e.Load? && Lists(e.order, e.users.Keys) && n <= Known(policies, e.order)
    requires forall r :: r in e.order ==> r in e.users
    ensures key in UserKeys(policies, e.users, e.order, n) <==> exists k: nat :: k < n && Entitles(policies, e, k, key)
    decreases n
  {
    if n > 0 {
      UserKeysAre(policies, e, n - 1, key);
      RoleKeysAre(policies[e.order[n - 1]], e.users[e.order[n - 1]], key);
      assert e.order[n - 1] in e.order;
      assert key in RoleKeys(policies[e.order[n - 1]], e.users[e.order[n - 1]]) <==> Entitles(policies, e, n - 1, key);
    }
  }

  ghost predicate EntitlesSome(policies: RolePolicies, e: Event, key: Key) {
    exists k: nat :: Entitles(policies, e, k, key)
  }

  /** Some load since the last reset entitles the holder of the key. */
  ghost predicate Loaded(policies: RolePolicies, events: seq<Event>, key: Key) {
    exists i :: 0 <= i < |events| && EntitlesSome(policies, events[i], key) && NoResetAfter(events, i)
  }

  predicate NoResetAfter(events: seq<Event>, i: int) { forall j :: 0 <= j && i < j < |events| ==> !events[j].Reset? }

  lemma LoadedOneMore(policies: RolePolicies, events: seq<Event>, e: Event, key: Key)
    ensures Loaded(policies, events + [e], key) <==>
      e.Load? && (Loaded(policies, events, key) || EntitlesSome(policies, e, key))
  {
    var all, n := events + [e], |events|;
    assert all[n] == e && forall j :: 0 <= j < n ==> all[j] == events[j];
    if Loaded(policies, all, key) {
      var i :| 0 <= i < |all| && EntitlesSome(policies, all[i], key) && NoResetAfter(all, i);
      if i < n { assert EntitlesSome(policies, events[i], key) && NoResetAfter(events, i); }
    }
    if e.Load? && Loaded(policies, events, key) {
      var i :| 0 <= i < n && EntitlesSome(policies, events[i], key) && NoResetAfter(events, i);
      assert EntitlesSome(policies, all[i], key) && NoResetAfter(all, i);
    }
    if e.Load? && EntitlesSome(policies, e, key) {
      assert EntitlesSome(policies, all[n], key) && NoResetAfter(all, n);
    }
  }

  lemma AfterLoad(policies: RolePolicies, keys: set<Key>, e: Event, key: Key)
    requires e.Load? && Lists(e.order, e.users.Keys)
    ensures key in After(policies, keys, e) <==> key in keys || EntitlesSome(policies, e, key)
  {
    assert forall r :: r in e.order ==> r in Elements(e.order);
    UserKeysAre(policies, e, Known(policies, e.order), key);
    if EntitlesSome(policies, e, key) {
      var k: nat :| Entitles(policies, e, k, key);
    }
  }

  lemma {:induction false} IndexIsWhatWasLoaded(policies: RolePolicies, events: seq<Event>, key: Key)
    requires Proper(events)
    ensures key in Index(policies, events) <==> Loaded(policies, events, key)
  {
    if events != [] {
      var before, e := events[..|events| - 1], events[|events| - 1];
      IndexIsWhatWasLoaded(policies, before, key);
      assert events == before + [e];
      LoadedOneMore(policies, before, e, key);
      if e.Load? { AfterLoad(policies, Index(policies, before), e, key); }
    }
  }

  /** After any history, a valid request for a declared pair is allowed exactly when one of its groups
    * was loaded for its tenant since the last reset, under a role whose policies grant it. */
  lemma AllowedIffEntitled(policies: RolePolicies, events: seq<Event>, resourceActions: map<Resource, seq<Action>>,
                           ctx: Context, r: BusinessRequest)
    requires Proper(events)
    ensures Decide(Index(policies, events), resourceActions, ctx, r) == Allowed <==>
      && ValidRequest(ctx, r) && Declared(resourceActions, r.resource, r.action)
      && exists g :: g in r.groups && Loaded(policies, events, Key(r.tenant, g, r.resource, r.action))
  {
    forall g ensures Key(r.tenant, g, r.resource, r.action) in Index(policies, events) <==>
                     Loaded(policies, events, Key(r.tenant, g, r.resource, r.action)) {
      IndexIsWhatWasLoaded(policies, events, Key(r.tenant, g, r.resource, r.action));
    }
  }

  /** Loading users of other tenants never changes an answer, whether the load fails or not. */
  lemma OtherTenantsDoNotMatter(policies: RolePolicies, keys: set<Key>, e: Event,
                                resourceActions: map<Resource, seq<Action>>, ctx: Context, r: BusinessRequest)
    requires e.Load? && Lists(e.order, e.users.Keys)
    requires forall role :: role in e.users ==> e.users[role].tenant != r.tenant
    ensures Decide(After(policies, keys, e), resourceActions, ctx, r) == Decide(keys, resourceActions, ctx, r)
  {
    assert forall role :: role in e.order ==> role in Elements(e.order);
    forall g ensures Key(r.tenant, g, r.resource, r.action) in After(policies, keys, e) <==>
                     Key(r.tenant, g, r.resource, r.action) in keys {
      UserKeysAre(policies, e, Known(policies, e.order), Key(r.tenant, g, r.resource, r.action));
    }
  }

  /** A load, also one that fails on an unknown role, keeps what was there and adds only keys of its own
    * users that a known role's policies grant; a load without unknown roles adds all of them. */
  lemma LoadAddsOnlyEntitledKeys(policies: RolePolicies, keys: set<Key>, e: Event, key: Key)
    requires e.Load? && Lists(e.order, e.users.Keys)
    ensures key in keys ==> key in After(policies, keys, e)
    ensures key in After(policies, keys, e) && key !in keys ==>
      exists role :: role in e.users && role in policies && Holds(policies[role], e.users[role], key)
    ensures (forall role :: role in e.users ==> role in policies) ==>
      forall role :: role in e.users && Holds(policies[role], e.users[role], key) ==> key in After(policies, keys, e)
  {
    assert forall role :: role in e.order <==> role in Elements(e.order);
    var n := Known(policies, e.order);
    UserKeysAre(policies, e, n, key);
    if key in After(policies, keys, e) && key !in keys {
      var k: nat :| k < n && Entitles(policies, e, k, key);
      assert Holds(policies[e.order[k]], e.users[e.order[k]], key);
    }
    if forall role :: role in e.users ==> role in policies {
      forall role | role in e.users && Holds(policies[role], e.users[role], key)
        ensures key in After(policies, keys, e)
      {
        var k: nat :| k < |e.order| && e.order[k] == role;
        assert Entitles(policies, e, k, key);
      }
    }
  }

  predicate Holds(policies: seq<Policy>, user: BusinessUser, key: Key) {
    key.tenant == user.tenant && key.group in user.groups && Grants(policies, key.resource, key.action)
  }

  // ---- internal users ----

  datatype InternalKey = InternalKey(role: Role, resource: Resource, action: Action)

  function InternalKeys(policies: RolePolicies, roles: set<Role>): set<InternalKey> {
    set role, p, r, a |
      role in roles && role in policies && p in policies[role] && r in p.resources && a in r.actions ::
      InternalKey(role, r.resource, a)
  }

  /** NewInternalUserAuthzData: the index of the static policies, whatever the iteration order. */
  method NewInternalUserAuthzData(policies: RolePolicies, order: seq<Role>) returns (keys: set<InternalKey>)
    requires Lists(order, policies.Keys)
    ensures forall key :: key in keys <==> key.role in policies && Grants(policies[key.role], key.resource, key.action)
  {
    keys := {};
    for i := 0 to |order|
      invariant keys == InternalKeys(policies, Elements(order[..i]))
    {
      assert order[..i + 1] == order[..i] + [order[i]];
      assert order[i] in Elements(order);
      var found := set p, r, a | p in policies[order[i]] && r in p.resources && a in r.actions ::
        InternalKey(order[i], r.resource, a);
      keys := keys + found;
    }
    assert order[..|order|] == order;
    InternalKeysAre(policies);
  }

  lemma InternalKeysAre(policies: RolePolicies)
    ensures forall key :: key in InternalKeys(policies, policies.Keys) <==>
      key.role in policies && Grants(policies[key.role], key.resource, key.action)
  {
    forall key: InternalKey | key.role in policies && Grants(policies[key.role], key.resource, key.action)
      ensures key in InternalKeys(policies, policies.Keys)
    {
      var p, r :| p in policies[key.role] && r in p.resources && r.resource == key.resource && key.action in r.actions;
      assert InternalKey(key.role, r.resource, key.action) in InternalKeys(policies, policies.Keys);
    }
  }
}
