/** Interactive login: which grants are planned, which are attempted, and which
    errors lead from one to the next. */
module Login {
  import opened Types

  // ---------- Errors ----------

  datatype Code = UnauthorizedClient | InvalidGrant | OtherCode(name: string)

  /** An error tree: a token-endpoint error, an authorization-endpoint error, any
      other error, and errors that wrap one or several others. */
  datatype Err = Retrieve(code: Code) | Authorization(code: Code) | Plain | Wrap(inner: Err) | Join(inners: seq<Err>)

  /** `errors.As` for the token-endpoint error: the first one in pre-order. */
  function AsRetrieve(e: Err): Option<Code>
    decreases e, 1
  {
    match e
    case Retrieve(code) => Some(code)
    case Wrap(inner) => AsRetrieve(inner)
    case Join(inners) => AsRetrieveIn(inners)
    case _ => None
  }

  function AsRetrieveIn(es: seq<Err>): Option<Code>
    decreases es, 0
  {
    if es == [] then None
    else if AsRetrieve(es[0]).Some? then AsRetrieve(es[0])
    else AsRetrieveIn(es[1..])
  }

  /** `errors.As` for the authorization-endpoint error. */
  function AsAuthorization(e: Err): Option<Code>
    decreases e, 1
  {
    match e
    case Authorization(code) => Some(code)
    case Wrap(inner) => AsAuthorization(inner)
    case Join(inners) => AsAuthorizationIn(inners)
    case _ => None
  }

  function AsAuthorizationIn(es: seq<Err>): Option<Code>
    decreases es, 0
  {
    if es == [] then None
    else if AsAuthorization(es[0]).Some? then AsAuthorization(es[0])
    else AsAuthorizationIn(es[1..])
  }

  predicate IsPerClientRejection(e: Err) {
    if AsRetrieve(e).Some? then AsRetrieve(e).value == UnauthorizedClient
    else AsAuthorization(e).Some? && (AsAuthorization(e).value == UnauthorizedClient || AsAuthorization(e).value == InvalidGrant)
  }

  /** The errors at the leaves of a tree, from left to right. */
  function Leaves(e: Err): seq<Err>
    decreases e, 1
  {
    match e
    case Wrap(inner) => Leaves(inner)
    case Join(inners) => LeavesIn(inners)
    case _ => [e]
  }

  function LeavesIn(es: seq<Err>): seq<Err>
    decreases es, 0
  {
    if es == [] then [] else Leaves(es[0]) + LeavesIn(es[1..])
  }

  /** Leaf `i` is the first one of its kind. */
  ghost predicate FirstRetrieve(leaves: seq<Err>, i: int) {
    0 <= i < |leaves| && leaves[i].Retrieve? && forall j :: 0 <= j < i ==> !leaves[j].Retrieve?
  }

  ghost predicate FirstAuthorization(leaves: seq<Err>, i: int) {
    0 <= i < |leaves| && leaves[i].Authorization? && forall j :: 0 <= j < i ==> !leaves[j].Authorization?
  }

  ghost predicate RetrieveAgrees(leaves: seq<Err>, found: Option<Code>) {
    && (found.None? ==> forall j :: 0 <= j < |leaves| ==> !leaves[j].Retrieve?)
    && (found.Some? ==> exists i :: FirstRetrieve(leaves, i) && leaves[i].code == found.value)
  }

  ghost predicate AuthorizationAgrees(leaves: seq<Err>, found: Option<Code>) {
    && (found.None? ==> forall j :: 0 <= j < |leaves| ==> !leaves[j].Authorization?)
    && (found.Some? ==> exists i :: FirstAuthorization(leaves, i) && leaves[i].code == found.value)
  }

  lemma RetrieveConcat(x: seq<Err>, fx: Option<Code>, y: seq<Err>, fy: Option<Code>)
    requires RetrieveAgrees(x, fx) && RetrieveAgrees(y, fy)
    ensures RetrieveAgrees(x + y, if fx.Some? then fx else fy)
  {
    if fx.Some? {
      var i :| FirstRetrieve(x, i) && x[i].code == fx.value;
      assert FirstRetrieve(x + y, i);
    } else if fy.Some? {
      var i :| FirstRetrieve(y, i) && y[i].code == fy.value;
      assert FirstRetrieve(x + y, |x| + i);
    }
  }

  lemma AuthorizationConcat(x: seq<Err>, fx: Option<Code>, y: seq<Err>, fy: Option<Code>)
    requires AuthorizationAgrees(x, fx) && AuthorizationAgrees(y, fy)
    ensures AuthorizationAgrees(x + y, if fx.Some? then fx else fy)
  {
    if fx.Some? {
      var i :| FirstAuthorization(x, i) && x[i].code == fx.value;
      assert FirstAuthorization(x + y, i);
    } else if fy.Some? {
      var i :| FirstAuthorization(y, i) && y[i].code == fy.value;
      assert FirstAuthorization(x + y, |x| + i);
    }
  }

  /** Searching the tree finds the first leaf of each kind. */
  lemma {:induction false} SearchFindsFirst(e: Err)
    ensures RetrieveAgrees(Leaves(e), AsRetrieve(e)) && AuthorizationAgrees(Leaves(e), AsAuthorization(e))
    decreases e, 1
  {
    match e
    case Wrap(inner) => SearchFindsFirst(inner);
    case Join(inners) => SearchFindsFirstIn(inners);
    case Retrieve(_) => assert FirstRetrieve([e], 0);
    case Authorization(_) => assert FirstAuthorization([e], 0);
    case Plain =>
  }

  lemma {:induction false} SearchFindsFirstIn(es: seq<Err>)
    ensures RetrieveAgrees(LeavesIn(es), AsRetrieveIn(es)) && AuthorizationAgrees(LeavesIn(es), AsAuthorizationIn(es))
    decreases es, 0
  {
    if es != [] {
      SearchFindsFirst(es[0]);
      SearchFindsFirstIn(es[1..]);
      RetrieveConcat(Leaves(es[0]), AsRetrieve(es[0]), LeavesIn(es[1..]), AsRetrieveIn(es[1..]));
      AuthorizationConcat(Leaves(es[0]), AsAuthorization(es[0]), LeavesIn(es[1..]), AsAuthorizationIn(es[1..]));
    }
  }

  /** The verdict depends only on the leaves: a token-endpoint error anywhere decides
      alone, the first one if there are several; without one the first authorization
      error decides. */
  lemma RejectionByLeaves(e: Err)
    ensures var leaves := Leaves(e);
            && (forall i :: FirstRetrieve(leaves, i) ==> (IsPerClientRejection(e) <==> leaves[i].code == UnauthorizedClient))
            && (forall i :: FirstAuthorization(leaves, i) && (forall j :: 0 <= j < |leaves| ==> !leaves[j].Retrieve?) ==>
                  (IsPerClientRejection(e) <==> leaves[i].code == UnauthorizedClient || leaves[i].code == InvalidGrant))
            && (IsPerClientRejection(e) ==> exists i :: FirstRetrieve(leaves, i) || FirstAuthorization(leaves, i))
  {
    SearchFindsFirst(e);
  }

  /** The verdict on single errors, and how it carries over to wrapping and joining: the
      search goes through joined errors from left to right, for a token-endpoint error
      in all of them first. */
  lemma VerdictCases(e: Err, es: seq<Err>)
    ensures forall code :: IsPerClientRejection(Retrieve(code)) <==> code == UnauthorizedClient
    ensures forall code :: IsPerClientRejection(Authorization(code)) <==> code == UnauthorizedClient || code == InvalidGrant
    ensures !IsPerClientRejection(Plain) && !IsPerClientRejection(Join([]))
    ensures AsRetrieve(Wrap(e)) == AsRetrieve(e) && AsAuthorization(Wrap(e)) == AsAuthorization(e)
    ensures IsPerClientRejection(Wrap(e)) == IsPerClientRejection(e)
    ensures AsRetrieve(e).Some? ==> IsPerClientRejection(Join([e] + es)) == IsPerClientRejection(e)
    ensures AsRetrieve(e).None? && AsRetrieve(Join(es)).Some? ==> IsPerClientRejection(Join([e] + es)) == IsPerClientRejection(Join(es))
    ensures AsRetrieve(e).None? && AsRetrieve(Join(es)).None? ==>
              IsPerClientRejection(Join([e] + es)) ==
                if AsAuthorization(e).Some? then IsPerClientRejection(e) else IsPerClientRejection(Join(es))
    ensures AsRetrieve(Join([e] + es)).Some? <==> AsRetrieve(e).Some? || AsRetrieve(Join(es)).Some?
    ensures AsAuthorization(Join([e] + es)).Some? <==> AsAuthorization(e).Some? || AsAuthorization(Join(es)).Some?
    ensures forall code :: AsRetrieve(Retrieve(code)).Some? && AsAuthorization(Authorization(code)).Some?
    ensures forall code :: AsRetrieve(Authorization(code)).None? && AsAuthorization(Retrieve(code)).None?
    ensures AsRetrieve(Plain).None? && AsAuthorization(Plain).None? && AsRetrieve(Join([])).None? && AsAuthorization(Join([])).None?
  {
    assert ([e] + es)[0] == e && ([e] + es)[1..] == es;
    assert AsRetrieveIn([e] + es) == if AsRetrieve(e).Some? then AsRetrieve(e) else AsRetrieveIn(es);
    assert AsAuthorizationIn([e] + es) == if AsAuthorization(e).Some? then AsAuthorization(e) else AsAuthorizationIn(es);
  }

  function Wrapped(e: Err, depth: nat): Err {
    if depth == 0 then e else Wrap(Wrapped(e, depth - 1))
  }

  /** No depth of wrapping changes the verdict, nor does any arrangement of the same leaves. */
  lemma WrappingIsTransparent(e: Err, f: Err, depth: nat)
    ensures IsPerClientRejection(Wrapped(e, depth)) == IsPerClientRejection(e)
    ensures Leaves(e) == Leaves(f) ==> IsPerClientRejection(e) == IsPerClientRejection(f)
  {
    WrappedLeaves(e, depth);
    SameLeaves(e, Wrapped(e, depth));
    if Leaves(e) == Leaves(f) {
      SameLeaves(e, f);
    }
  }

  lemma {:induction false} WrappedLeaves(e: Err, depth: nat)
    ensures Leaves(Wrapped(e, depth)) == Leaves(e)
  {
    if depth > 0 {
      WrappedLeaves(e, depth - 1);
    }
  }

  lemma SameLeaves(e: Err, f: Err)
    requires Leaves(e) == Leaves(f)
    ensures AsRetrieve(e) == AsRetrieve(f) && AsAuthorization(e) == AsAuthorization(f)
  {
    SearchFindsFirst(e);
    SearchFindsFirst(f);
  }

  // ---------- The plan ----------

  datatype Grant = AuthorizationCode | DeviceCode | TokenExchange | OtherGrant(name: string)

  datatype GrantType = Auto | Unset | AuthCodeOnly | DeviceCodeOnly | UnknownType(name: string)

  datatype Environment = Environment(tty: bool, display: bool)

  /** The discovery claims that grant selection looks at. */
  datatype Provider = Provider(hasDeviceEndpoint: bool, grantTypesSupported: seq<Grant>, codeChallengeMethods: seq<string>)

  /** An absent or empty list forbids nothing. */
  predicate SupportsGrant(p: Provider, g: Grant) {
    p.grantTypesSupported == [] || g in p.grantTypesSupported
  }

  method CheckGrant(p: Provider, g: Grant) returns (supported: bool)
    ensures supported == SupportsGrant(p, g)
    ensures supported <==> p.grantTypesSupported == [] || g in p.grantTypesSupported
  {
    if |p.grantTypesSupported| == 0 {
      return true;
    }
    for i := 0 to |p.grantTypesSupported|
      invariant g !in p.grantTypesSupported[..i]
    {
      if p.grantTypesSupported[i] == g {
        return true;
      }
    }
    return false;
  }

  const S256 := "S256"

  /** An absent or empty list allows S256; one without it allows nothing. */
  predicate ChallengeAllowed(p: Provider) {
    p.codeChallengeMethods == [] || S256 in p.codeChallengeMethods
  }

  method CodeChallengeMethod(p: Provider) returns (m: Option<string>)
    ensures m.Some? <==> ChallengeAllowed(p)
    ensures m == if p.codeChallengeMethods == [] || "S256" in p.codeChallengeMethods then Some("S256") else None
  {
    if |p.codeChallengeMethods| == 0 {
      return Some(S256);
    }
    for i := 0 to |p.codeChallengeMethods|
      invariant S256 !in p.codeChallengeMethods[..i]
    {
      if p.codeChallengeMethods[i] == S256 {
        return Some(S256);
      }
    }
    return None;
  }

  datatype PlanError = NotSupported | InteractionUnavailable | UnknownGrantType

  datatype PlanResult = Order(grants: seq<Grant>) | NoPlan(error: PlanError)

  function Plan(p: Provider, grantType: GrantType, env: Environment, nonInteractive: bool): PlanResult {
    var authcodeAdvertised := SupportsGrant(p, AuthorizationCode);
    var deviceAdvertised := p.hasDeviceEndpoint && SupportsGrant(p, DeviceCode);
    var authcodeViable := authcodeAdvertised && env.display;
    var deviceViable := deviceAdvertised && env.tty && !nonInteractive;
    match grantType
    case AuthCodeOnly =>
      if !authcodeAdvertised then NoPlan(NotSupported)
      else if !authcodeViable then NoPlan(InteractionUnavailable)
      else Order([AuthorizationCode])
    case DeviceCodeOnly =>
      if !deviceAdvertised then NoPlan(NotSupported)
      else if !deviceViable then NoPlan(InteractionUnavailable)
      else Order([DeviceCode])
    case UnknownType(_) => NoPlan(UnknownGrantType)
    case _ =>
      if !authcodeAdvertised && !deviceAdvertised then NoPlan(NotSupported)
      else
        var order := (if authcodeViable then [AuthorizationCode] else []) + (if deviceViable then [DeviceCode] else []);
        if order == [] then NoPlan(InteractionUnavailable) else Order(order)
  }

  /** What discovery says the issuer supports, as far as planning looks. */
  predicate Advertised(p: Provider, g: Grant) {
    match g
    case AuthorizationCode => SupportsGrant(p, AuthorizationCode)
    case DeviceCode => p.hasDeviceEndpoint && SupportsGrant(p, DeviceCode)
    case _ => false
  }

  /** The provider's own checks at the start of AuthCodeLogin and DeviceLogin. */
  predicate ProviderAccepts(p: Provider, g: Grant) {
    match g
    case AuthorizationCode => SupportsGrant(p, AuthorizationCode) && ChallengeAllowed(p)
    case DeviceCode => p.hasDeviceEndpoint && SupportsGrant(p, DeviceCode)
    case _ => false
  }

  /** The environment a grant needs: a browser, or somebody at the terminal. */
  predicate Workable(g: Grant, env: Environment, nonInteractive: bool) {
    match g
    case AuthorizationCode => env.display
    case DeviceCode => env.tty && !nonInteractive
    case _ => false
  }

  predicate Asked(grantType: GrantType, g: Grant) {
    match grantType
    case AuthCodeOnly => g == AuthorizationCode
    case DeviceCodeOnly => g == DeviceCode
    case UnknownType(_) => false
    case _ => true
  }

  predicate Offered(p: Provider, grantType: GrantType, g: Grant) {
    Asked(grantType, g) && Advertised(p, g)
  }

  predicate Planned(p: Provider, grantType: GrantType, env: Environment, nonInteractive: bool, g: Grant) {
    Asked(grantType, g) && Advertised(p, g) && Workable(g, env, nonInteractive)
  }

  lemma PlannedMember(p: Provider, grantType: GrantType, env: Environment, nonInteractive: bool, g: Grant)
    ensures var plan := Plan(p, grantType, env, nonInteractive);
            plan.Order? && g in plan.grants <==> Planned(p, grantType, env, nonInteractive, g)
  {
    match g
    case AuthorizationCode =>
    case DeviceCode =>
    case _ =>
  }

  /** The plan consists of exactly the grants that were asked for, that the issuer
      advertises and that the environment allows, each once, authorization_code
      first; and there is none exactly when there is no such grant. */
  lemma PlanIsExact(p: Provider, grantType: GrantType, env: Environment, nonInteractive: bool)
    ensures var plan := Plan(p, grantType, env, nonInteractive);
            && (plan.Order? <==> exists g :: Planned(p, grantType, env, nonInteractive, g))
            && (plan.Order? ==>
                  && 1 <= |plan.grants| <= 2
                  && (forall g :: g in plan.grants <==> Planned(p, grantType, env, nonInteractive, g))
                  && (|plan.grants| == 2 ==> plan.grants == [AuthorizationCode, DeviceCode]))
            && (plan == NoPlan(InteractionUnavailable) <==>
                  (exists g :: Offered(p, grantType, g)) && !(exists g :: Planned(p, grantType, env, nonInteractive, g)))
            && (plan == NoPlan(UnknownGrantType) <==> grantType.UnknownType?)
  {
    var plan := Plan(p, grantType, env, nonInteractive);
    forall g
      ensures plan.Order? && g in plan.grants <==> Planned(p, grantType, env, nonInteractive, g)
    {
      PlannedMember(p, grantType, env, nonInteractive, g);
    }
    if plan.Order? {
      assert Planned(p, grantType, env, nonInteractive, plan.grants[0]);
    }
    if plan.NoPlan? {
      RefusalIsExact(p, grantType, env, nonInteractive);
    }
  }

  /** Why there is no plan: nothing asked for is advertised, or the environment allows none of it. */
  lemma RefusalIsExact(p: Provider, grantType: GrantType, env: Environment, nonInteractive: bool)
    requires Plan(p, grantType, env, nonInteractive).NoPlan?
    ensures Plan(p, grantType, env, nonInteractive).error.InteractionUnavailable? <==> exists g :: Offered(p, grantType, g)
  {
    if g :| Offered(p, grantType, g) {
      assert g == AuthorizationCode || g == DeviceCode;
    } else {
      assert !Offered(p, grantType, AuthorizationCode) && !Offered(p, grantType, DeviceCode);
    }
  }

  /** Planning does not look at the code challenge methods, so a planned grant passes
      the provider's own checks unless it is authorization_code with an issuer that
      rules out S256. */
  lemma PlannedIsAcceptedExactly(p: Provider, grantType: GrantType, env: Environment, nonInteractive: bool)
    requires Plan(p, grantType, env, nonInteractive).Order?
    ensures var grants := Plan(p, grantType, env, nonInteractive).grants;
            (forall g :: g in grants ==> ProviderAccepts(p, g)) <==> (AuthorizationCode in grants ==> ChallengeAllowed(p))
  {
    PlanIsExact(p, grantType, env, nonInteractive);
    var grants := Plan(p, grantType, env, nonInteractive).grants;
    assert forall g :: g in grants ==> Planned(p, grantType, env, nonInteractive, g);
  }

  // ---------- The attempts ----------

  datatype Attempt = Success(res: TokenSet) | Failure(err: Err)

  const MAX_INTERACTIVE_ATTEMPTS := 2

  /** One attempt: the provider's opening checks, each of which fails with an error that
      is neither a token-endpoint nor an authorization error, and then the flow itself. */
  function AttemptOf(p: Provider, g: Grant, flow: Grant -> Attempt): Attempt {
    match g
    case AuthorizationCode =>
      if !SupportsGrant(p, AuthorizationCode) then Failure(Plain)
      else if !ChallengeAllowed(p) then Failure(Plain)
      else flow(g)
    case DeviceCode =>
      if !p.hasDeviceEndpoint then Failure(Plain)
      else if !SupportsGrant(p, DeviceCode) then Failure(Plain)
      else flow(g)
    case _ => Failure(Plain)
  }

  /** How an attempt of each grant ends when `flow` says how the flows behind the checks end. */
  function Guarded(p: Provider, flow: Grant -> Attempt): Grant -> Attempt {
    g => AttemptOf(p, g, flow)
  }

  /** A list from discovery that is absent or empty forbids nothing. */
  predicate Lists<T(==)>(list: seq<T>, x: T) { list == [] || x in list }

  /** A flow is entered exactly when the provider accepts the grant. */
  method Try(p: Provider, g: Grant, flow: Grant -> Attempt) returns (a: Attempt)
    ensures a == Guarded(p, flow)(g)
    ensures a == if ProviderAccepts(p, g) then flow(g) else Failure(Plain)
    ensures g.AuthorizationCode? ==>
              a == if Lists(p.grantTypesSupported, g) && Lists(p.codeChallengeMethods, "S256") then flow(g) else Failure(Plain)
    ensures g.DeviceCode? ==> a == if p.hasDeviceEndpoint && Lists(p.grantTypesSupported, g) then flow(g) else Failure(Plain)
    ensures !g.AuthorizationCode? && !g.DeviceCode? ==> a == Failure(Plain)
  {
    match g {
      case AuthorizationCode =>
        var supported := CheckGrant(p, AuthorizationCode);
        if !supported {
          return Failure(Plain);
        }
        var m := CodeChallengeMethod(p);
        if m.None? {
          return Failure(Plain);
        }
        return flow(g);
      case DeviceCode =>
        if !p.hasDeviceEndpoint {
          return Failure(Plain);
        }
        var supported := CheckGrant(p, DeviceCode);
        if !supported {
          return Failure(Plain);
        }
        return flow(g);
      case _ =>
        return Failure(Plain);
    }
  }

  /** An outcome after which no other grant is tried. */
  predicate Final(a: Attempt) {
    a.Success? || !IsPerClientRejection(a.err)
  }

  /** `tried` is the shortest prefix of `order` that ends in a final outcome, or all
      of it if there is none. */
  ghost predicate ShortestPrefix(tried: seq<Grant>, order: seq<Grant>, outcomes: Grant -> Attempt) {
    && tried != [] && tried <= order
    && (forall i :: 0 <= i < |tried| - 1 ==> !Final(outcomes(tried[i])))
    && (Final(outcomes(tried[|tried| - 1])) || tried == order)
  }

  datatype LoginError = DiscoveryFailed | Unplanned(error: PlanError) | AttemptFailed(err: Err)

  datatype LoginResult = LoggedIn(res: TokenSet) | LoginFailed(error: LoginError)

  class Source {
    const grantType: GrantType
    const env: Environment
    const nonInteractive: bool
    var provider: Option<Provider>
    var discoveries: nat
    var attempts: seq<Grant>

    constructor (grantType: GrantType, env: Environment, nonInteractive: bool)
      ensures this.grantType == grantType && this.env == env && this.nonInteractive == nonInteractive
      ensures provider == None && discoveries == 0 && attempts == []
    {
      this.grantType := grantType;
      this.env := env;
      this.nonInteractive := nonInteractive;
      provider := None;
      discoveries := 0;
      attempts := [];
    }

    /** The first successful discovery is kept; after it the network is not asked again. */
    method Discover(found: Option<Provider>) returns (p: Option<Provider>)
      modifies this`provider, this`discoveries
      ensures p == (if old(provider).Some? then old(provider) else found) && provider == p
      ensures discoveries == old(discoveries) + if old(provider).Some? then 0 else 1
    {
      if provider.Some? {
        return provider;
      }
      discoveries := discoveries + 1;
      if found.Some? {
        provider := found;
      }
      return found;
    }

    /** The fallback loop of `Login`. */
    method TryInOrder(p: Provider, order: seq<Grant>, flow: Grant -> Attempt) returns (last: Attempt, ghost tried: seq<Grant>)
      requires order != []
      modifies this`attempts
      ensures attempts == old(attempts) + tried
      ensures ShortestPrefix(tried, order, Guarded(p, flow)) && last == Guarded(p, flow)(tried[|tried| - 1])
    {
      for i := 0 to |order|
        invariant attempts == old(attempts) + order[..i]
        invariant forall j :: 0 <= j < i ==> !Final(Guarded(p, flow)(order[j]))
        invariant i < |order|
      {
        last := Try(p, order[i], flow);
        attempts := attempts + [order[i]];
        tried := order[..i + 1];
        if last.Success? {
          return;
        }
        if i == |order| - 1 || !IsPerClientRejection(last.err) {
          assert i == |order| - 1 ==> tried == order;
          return;
        }
      }
      assert false;
    }

    /** Selects and attempts grants. `flow` says how each grant's flow ends once entered. */
    method Login(found: Option<Provider>, flow: Grant -> Attempt) returns (result: LoginResult, ghost tried: seq<Grant>)
      modifies this
      ensures provider == if old(provider).Some? then old(provider) else found
      ensures attempts == old(attempts) + tried
      // The result is that of the last grant tried, and there is one exactly with a plan.
      ensures tried != [] <==> provider.Some? && Plan(provider.value, grantType, env, nonInteractive).Order?
      ensures forall res :: result == LoggedIn(res) <==>
                tried != [] && provider.Some? && Guarded(provider.value, flow)(tried[|tried| - 1]) == Success(res)
      ensures forall err :: result == LoginFailed(AttemptFailed(err)) <==>
                tried != [] && provider.Some? && Guarded(provider.value, flow)(tried[|tried| - 1]) == Failure(err)
      ensures provider == None ==> result == LoginFailed(DiscoveryFailed) && tried == []
      ensures provider.Some? ==>
                match Plan(provider.value, grantType, env, nonInteractive)
                case NoPlan(error) => result == LoginFailed(Unplanned(error)) && tried == []
                case Order(grants) => ShortestPrefix(tried, grants, Guarded(provider.value, flow)) &&
                                      result == Concluded(Guarded(provider.value, flow)(tried[|tried| - 1]))
    {
      tried := [];
      var p := Discover(found);
      if p.None? {
        return LoginFailed(DiscoveryFailed), [];
      }
      var plan := Plan(p.value, grantType, env, nonInteractive);
      if plan.NoPlan? {
        return LoginFailed(Unplanned(plan.error)), [];
      }
      var order := Capped(plan.grants);
      PlanIsExact(p.value, grantType, env, nonInteractive);
      var last;
      last, tried := TryInOrder(p.value, order, flow);
      result := Concluded(last);
    }
  }

  /** The bound on attempts; no plan is long enough for it to matter. */
  function Capped(order: seq<Grant>): seq<Grant> {
    if |order| > MAX_INTERACTIVE_ATTEMPTS then order[..MAX_INTERACTIVE_ATTEMPTS] else order
  }

  function Concluded(a: Attempt): LoginResult {
    match a
    case Success(res) => LoggedIn(res)
    case Failure(err) => LoginFailed(AttemptFailed(err))
  }

  /** What a login attempts, in terms of the grants alone: never more than two, none
      twice, device-code only with somebody at the terminal, and only grants the
      issuer advertises; a second attempt follows exactly a per-client rejection of
      the first when both were planned. */
  lemma AttemptsAreBounded(p: Provider, grantType: GrantType, env: Environment, nonInteractive: bool,
                           tried: seq<Grant>, outcomes: Grant -> Attempt)
    requires var plan := Plan(p, grantType, env, nonInteractive); plan.Order? && ShortestPrefix(tried, plan.grants, outcomes)
    ensures |tried| <= 2 && (forall i, j :: 0 <= i < j < |tried| ==> tried[i] != tried[j])
    ensures forall g :: g in tried ==> Advertised(p, g) && Workable(g, env, nonInteractive)
    ensures DeviceCode in tried ==> env.tty && !nonInteractive
    ensures |tried| == 2 <==>
              Planned(p, grantType, env, nonInteractive, AuthorizationCode) && Planned(p, grantType, env, nonInteractive, DeviceCode) &&
              outcomes(AuthorizationCode).Failure? && IsPerClientRejection(outcomes(AuthorizationCode).err)
  {
    PlanIsExact(p, grantType, env, nonInteractive);
    var order := Plan(p, grantType, env, nonInteractive).grants;
    assert forall g :: g in tried ==> g in order;
    assert tried[0] == order[0];
  }

  /** A grant that is planned first, accepted and successful is all that is tried. */
  lemma FirstSuccessDecides(p: Provider, grantType: GrantType, env: Environment, nonInteractive: bool,
                            tried: seq<Grant>, flow: Grant -> Attempt, res: TokenSet)
    requires var plan := Plan(p, grantType, env, nonInteractive);
             plan.Order? && ShortestPrefix(tried, plan.grants, Guarded(p, flow))
    requires var g := Plan(p, grantType, env, nonInteractive).grants;
             g != [] && ProviderAccepts(p, g[0]) && flow(g[0]) == Success(res)
    ensures var g := Plan(p, grantType, env, nonInteractive).grants;
            tried == [g[0]] && Guarded(p, flow)(tried[|tried| - 1]) == Success(res)
  {
    var g := Plan(p, grantType, env, nonInteractive).grants;
    assert tried[0] == g[0] && Guarded(p, flow)(g[0]) == Success(res);
    assert Final(Guarded(p, flow)(tried[0]));
  }

  /** A whole login: an issuer that takes the first planned grant and whose flow succeeds
      with `res` makes it `LoggedIn(res)`. */
  method LoginSucceeds(source: Source, p: Provider, flow: Grant -> Attempt, res: TokenSet) returns (result: LoginResult)
    requires source.provider == None
    requires var plan := Plan(p, source.grantType, source.env, source.nonInteractive);
             plan.Order? && plan.grants != [] && ProviderAccepts(p, plan.grants[0]) && flow(plan.grants[0]) == Success(res)
    modifies source
    ensures result == LoggedIn(res)
  {
    ghost var tried;
    result, tried := source.Login(Some(p), flow);
    FirstSuccessDecides(p, source.grantType, source.env, source.nonInteractive, tried, flow, res);
  }

  /** A refusal up front is no per-client rejection: whenever authorization_code is
      planned for an issuer that rules out S256, it is the only grant tried and the
      login fails, even if device-code was planned too and would have succeeded. */
  lemma RefusalEndsLogin(p: Provider, grantType: GrantType, env: Environment, nonInteractive: bool,
                         tried: seq<Grant>, flow: Grant -> Attempt)
    requires var plan := Plan(p, grantType, env, nonInteractive);
             plan.Order? && AuthorizationCode in plan.grants && ShortestPrefix(tried, plan.grants, Guarded(p, flow))
    requires !ChallengeAllowed(p)
    ensures tried == [AuthorizationCode] && Concluded(Guarded(p, flow)(AuthorizationCode)) == LoginFailed(AttemptFailed(Plain))
  {
    PlanIsExact(p, grantType, env, nonInteractive);
    var order := Plan(p, grantType, env, nonInteractive).grants;
    assert order[0] == AuthorizationCode;
    assert !IsPerClientRejection(Plain);
    assert tried[0] == order[0];
    assert Final(Guarded(p, flow)(tried[0]));
  }

  /** Such a login exists: an issuer with only "plain" challenges, a browser, and
      somebody at the terminal who never gets to see a device code. */
  lemma RefusalHappens(flow: Grant -> Attempt)
    requires flow(DeviceCode).Success?
    ensures var p := Provider(true, [], ["plain"]);
            var plan := Plan(p, Auto, Environment(true, true), false);
            && plan == Order([AuthorizationCode, DeviceCode])
            && forall tried :: ShortestPrefix(tried, plan.grants, Guarded(p, flow)) ==> tried == [AuthorizationCode]
  {
    var p := Provider(true, [], ["plain"]);
    var order := Plan(p, Auto, Environment(true, true), false).grants;
    forall tried | ShortestPrefix(tried, order, Guarded(p, flow))
      ensures tried == [AuthorizationCode]
    {
      RefusalEndsLogin(p, Auto, Environment(true, true), false, tried, flow);
    }
  }
}
