/**
  Which local account a social login resolves to, and what it may change there
  (internal/http_handlers/oauth_callback.go,
  internal/http_handlers/oauth_account_state.go).
 */
module Accounts {
  import opened Text
  import opened Methods

  /** A stored user; accounts are found by e-mail address. */
  datatype Account = Account(id: Str, verifiedAt: Option<int>, revoked: bool, methods: Str, roles: Str)

  type Users = map<Str, Account>

  datatype Config = Config(enableSignup: bool, protectedRoles: seq<Str>, allowUnverified: bool, engine: bool)

  // ---------------------------------------------------------------- what an account holds

  /** What deleting the account would destroy. */
  datatype Holdings = Holdings(memberships: nat, passkeys: nat, authenticators: seq<bool>, grants: nat)

  /** What a list lookup answers: it fails, or counts. */
  datatype Listing = ListFailed | Listed(count: nat)

  /** What an authenticator lookup answers. */
  datatype Enrolment = NotFound | LookupFailed | Nothing | Enrolled

  datatype Lookups = Lookups(memberships: Listing, passkeys: Listing, authenticators: seq<Enrolment>, grants: Listing)

  ghost predicate Holds(h: Holdings, engine: bool) {
    h.memberships > 0 || h.passkeys > 0 || true in h.authenticators || (engine && h.grants > 0)
  }

  ghost predicate TellsTruth(l: Listing, n: nat) {
    l.ListFailed? || l.count == n
  }

  /** Each lookup fails or tells the truth. */
  ghost predicate Truthful(l: Lookups, h: Holdings) {
    && TellsTruth(l.memberships, h.memberships) && TellsTruth(l.passkeys, h.passkeys) && TellsTruth(l.grants, h.grants)
    && |l.authenticators| == |h.authenticators|
    && forall i :: 0 <= i < |l.authenticators| ==>
                     l.authenticators[i] == LookupFailed || (l.authenticators[i].Enrolled? <==> h.authenticators[i])
  }

  ghost predicate NoneFails(l: Lookups) {
    !l.memberships.ListFailed? && !l.passkeys.ListFailed? && !l.grants.ListFailed? && LookupFailed !in l.authenticators
  }

  predicate Suspicious(l: Listing) {
    l.ListFailed? || l.count > 0
  }

  /** accountHasState: anything found or anything that could not be looked up. */
  predicate HasState(id: Str, l: Lookups, engine: bool) {
    && id != []
    && (Suspicious(l.memberships) || Suspicious(l.passkeys) ||
        LookupFailed in l.authenticators || Enrolled in l.authenticators ||
        (engine && Suspicious(l.grants)))
  }

  method AccountHasState(id: Str, l: Lookups, engine: bool) returns (has: bool)
    ensures has <==> HasState(id, l, engine)
  {
    if id == [] {
      return false;
    }
    if Suspicious(l.memberships) {
      return true;
    }
    if Suspicious(l.passkeys) {
      return true;
    }
    for i := 0 to |l.authenticators|
      invariant LookupFailed !in l.authenticators[..i] && Enrolled !in l.authenticators[..i]
    {
      match l.authenticators[i]
      case NotFound =>
      case LookupFailed => return true;
      case Enrolled => return true;
      case Nothing =>
    }
    assert l.authenticators[..|l.authenticators|] == l.authenticators;
    if engine && Suspicious(l.grants) {
      return true;
    }
    return false;
  }

  /** Whatever subset of the lookups fails, an account that holds something is seen to; one that holds nothing, if none fails, is not. */
  lemma FailsClosed(id: Str, l: Lookups, h: Holdings, engine: bool)
    requires Truthful(l, h)
    ensures id != [] && Holds(h, engine) ==> HasState(id, l, engine)
    ensures id != [] && NoneFails(l) ==> (HasState(id, l, engine) <==> Holds(h, engine))
    ensures !HasState([], l, engine)
  {
  }

  // ---------------------------------------------------------------- roles

  ghost predicate AnyOf(roles: seq<Str>, listed: seq<Str>) {
    exists r :: r in roles && r in listed
  }

  /** The requested roles the account does not have. */
  function Unassigned(requested: seq<Str>, existing: seq<Str>): (r: seq<Str>)
    ensures forall x :: x in r <==> x in requested && x !in existing
  {
    if requested == [] then [] else
      var rest := Unassigned(requested[1..], existing);
      if requested[0] in existing then rest else [requested[0]] + rest
  }

  /** The stored roles after a login that asks for these. */
  function Extended(stored: Str, requested: seq<Str>): Str {
    var missing := Unassigned(requested, Split(stored, COMMA));
    if missing == [] then stored else stored + COMMA + Join(missing, COMMA)
  }

  method HasAny(roles: seq<Str>, listed: seq<Str>) returns (any: bool)
    ensures any <==> AnyOf(roles, listed)
  {
    any := false;
    for i := 0 to |roles|
      invariant any <==> exists r :: r in roles[..i] && r in listed
    {
      if roles[i] in listed {
        any := true;
      }
    }
    assert roles[..|roles|] == roles;
  }

  lemma {:induction false} UnassignedAppend(done: seq<Str>, r: Str, existing: seq<Str>)
    ensures Unassigned(done + [r], existing) == Unassigned(done, existing) + (if r in existing then [] else [r])
  {
    if done == [] {
      assert done + [r] == [r];
    } else {
      UnassignedAppend(done[1..], r, existing);
      assert (done + [r])[1..] == done[1..] + [r];
    }
  }

  method FindUnassigned(requested: seq<Str>, existing: seq<Str>) returns (missing: seq<Str>)
    ensures missing == Unassigned(requested, existing)
  {
    missing := [];
    for i := 0 to |requested|
      invariant missing == Unassigned(requested[..i], existing)
    {
      UnassignedAppend(requested[..i], requested[i], existing);
      assert requested[..i + 1] == requested[..i] + [requested[i]];
      if requested[i] !in existing {
        missing := missing + [requested[i]];
      }
    }
    assert requested[..|requested|] == requested;
  }

  /** The old roles come first, unchanged, and the missing ones follow. */
  lemma ExtendedParts(stored: Str, requested: seq<Str>)
    requires forall r :: r in requested ==> ',' !in r
    ensures Split(Extended(stored, requested), COMMA) == Split(stored, COMMA) + Unassigned(requested, Split(stored, COMMA))
  {
    var missing := Unassigned(requested, Split(stored, COMMA));
    if missing != [] {
      SplitAppend(stored, ',', Join(missing, COMMA));
      SplitJoin(missing, ',');
    }
  }

  lemma {:induction false} NothingMissing(requested: seq<Str>, existing: seq<Str>)
    requires forall r :: r in requested ==> r in existing
    ensures Unassigned(requested, existing) == []
  {
    if requested != [] {
      NothingMissing(requested[1..], existing);
    }
  }

  /** Asking again for the same roles changes nothing. */
  lemma ExtendedTwice(stored: Str, requested: seq<Str>)
    requires forall r :: r in requested ==> ',' !in r
    ensures Extended(Extended(stored, requested), requested) == Extended(stored, requested)
  {
    ExtendedParts(stored, requested);
    NothingMissing(requested, Split(Extended(stored, requested), COMMA));
  }

  // ---------------------------------------------------------------- one login

  /** What the callback is given: the provider's answer, the flow's roles, and how storage behaves. */
  datatype Login = Login(provider: Str, email: Str, attested: bool, roles: Str, now: int, newId: Str, lookups: Lookups,
                         findFails: bool, addFails: bool, deleteFails: bool, updateFails: bool, upserts: bool)

  datatype Outcome = Refused | Failed | Resolved(account: Account, isSignUp: bool)

  datatype Result = Result(outcome: Outcome, users: Users)

  /** The account found for the address; a lookup that fails is taken for a missing account. */
  function Found(users: Users, l: Login): Option<Account> {
    if l.email in users && !l.findFails then Some(users[l.email]) else None
  }

  /** An address the provider has not attested selects nobody but, if the server is lenient, the provider's own. */
  ghost predicate MaySelect(cfg: Config, l: Login, found: Option<Account>) {
    l.attested || (cfg.allowUnverified && (found.Some? ==> Owns(found.value.methods, l.provider)))
  }

  /** AddUser: addresses are unique in the store, so adding a second account for one fails. */
  ghost function Added(users: Users, l: Login, verifiedAt: Option<int>): Result {
    if l.addFails || l.email in users then Result(Failed, users) else
      var a := Account(l.newId, verifiedAt, false, l.provider, l.roles);
      Result(Resolved(a, true), users[l.email := a])
  }

  /** The row this one was read from is still there. */
  predicate StillThere(users: Users, email: Str, a: Account) { email in users && users[email].id == a.id }

  /** DeleteUser removes the row that was read, if it is still there. */
  function Deleted(users: Users, email: Str, a: Account): Users {
    if StillThere(users, email, a) then users - {email} else users
  }

  /** UpdateUser writes the whole row; a row that is gone is put back by some backends and an error on others. */
  function Saves(users: Users, l: Login, a: Account): bool {
    !l.updateFails && (StillThere(users, l.email, a) || (l.upserts && l.email !in users))
  }

  ghost function SignUp(users: Users, cfg: Config, l: Login): Result {
    if !cfg.enableSignup || AnyOf(Split(l.roles, COMMA), cfg.protectedRoles) then Result(Refused, users)
    else Added(users, l, if l.attested then Some(l.now) else None)
  }

  ghost function Replace(users: Users, cfg: Config, l: Login, a: Account): Result {
    if HasState(a.id, l.lookups, cfg.engine) then Result(Refused, users)
    else if l.deleteFails then Result(Failed, users)
    else if AnyOf(Split(l.roles, COMMA), cfg.protectedRoles) then Result(Refused, Deleted(users, l.email, a))
    else Added(Deleted(users, l.email, a), l, Some(l.now))
  }

  ghost function Link(users: Users, cfg: Config, l: Login, a: Account): Result {
    var requested := Split(l.roles, COMMA);
    if AnyOf(Unassigned(requested, Split(a.roles, COMMA)), cfg.protectedRoles) then Result(Refused, users)
    else if !Saves(users, l, a) then Result(Failed, users)
    else
      var b := a.(methods := Linked(a.methods, l.provider), roles := Extended(a.roles, requested));
      Result(Resolved(b, false), users[l.email := b])
  }

  /** An unverified account that another method created. */
  ghost predicate Squatter(a: Account, provider: Str) {
    a.verifiedAt.None? && !Owns(a.methods, provider)
  }

  /** The callback after its first read; what it read may be out of date. */
  ghost function Decide(users: Users, cfg: Config, l: Login, found: Option<Account>): Result {
    if !MaySelect(cfg, l, found) then Result(Refused, users)
    else if found.None? then SignUp(users, cfg, l)
    else if found.value.revoked then Result(Refused, users)
    else if Squatter(found.value, l.provider) then Replace(users, cfg, l, found.value)
    else Link(users, cfg, l, found.value)
  }

  /** A whole login with nothing in between. */
  ghost function SocialLogin(users: Users, cfg: Config, l: Login): Result { Decide(users, cfg, l, Found(users, l)) }

  class UserStore {
    var users: Users

    constructor ()
      ensures users == map[]
    {
      users := map[];
    }

    method AddUser(l: Login, verifiedAt: Option<int>, roles: Str) returns (o: Outcome)
      requires roles == l.roles
      modifies this
      ensures Result(o, users) == Added(old(users), l, verifiedAt)
    {
      if l.addFails || l.email in users {
        return Failed;
      }
      var a := Account(l.newId, verifiedAt, false, l.provider, roles);
      users := users[l.email := a];
      return Resolved(a, true);
    }

    /** The part of the callback that resolves the local account, given what its lookup found. */
    method Callback(cfg: Config, l: Login, found: Option<Account>) returns (o: Outcome)
      modifies this
      ensures Result(o, users) == Decide(old(users), cfg, l, found)
    {
      var requested := Split(l.roles, COMMA);
      if !l.attested {
        var allowed := cfg.allowUnverified;
        if allowed && found.Some? {
          allowed := SignupMethodsContain(found.value.methods, l.provider);
        }
        if !allowed {
          return Refused;
        }
      }
      JoinSplit(l.roles, COMMA);
      if found.None? {
        if !cfg.enableSignup {
          return Refused;
        }
        var hasProtected := HasAny(requested, cfg.protectedRoles);
        if hasProtected {
          return Refused;
        }
        o := AddUser(l, if l.attested then Some(l.now) else None, Join(requested, COMMA));
        return;
      }
      if found.value.revoked {
        return Refused;
      }
      o := SignIn(cfg, l, found.value, requested);
    }

    method SignIn(cfg: Config, l: Login, a: Account, requested: seq<Str>) returns (o: Outcome)
      requires requested == Split(l.roles, COMMA)
      modifies this
      ensures Result(o, users) ==
              if Squatter(a, l.provider) then Replace(old(users), cfg, l, a) else Link(old(users), cfg, l, a)
    {
      var owns := SignupMethodsContain(a.methods, l.provider);
      if a.verifiedAt.None? && !owns {
        var hasState := AccountHasState(a.id, l.lookups, cfg.engine);
        if hasState {
          return Refused;
        }
        if l.deleteFails {
          return Failed;
        }
        users := Deleted(users, l.email, a);
        var hasProtected := HasAny(requested, cfg.protectedRoles);
        if hasProtected {
          return Refused;
        }
        JoinSplit(l.roles, COMMA);
        o := AddUser(l, Some(l.now), Join(requested, COMMA));
      } else {
        var methods := a.methods;
        if !Contains(methods, l.provider) {
          methods := methods + COMMA + l.provider;
        }
        var roles := a.roles;
        var missing := FindUnassigned(requested, Split(a.roles, COMMA));
        if |missing| > 0 {
          var hasProtected := HasAny(missing, cfg.protectedRoles);
          if hasProtected {
            return Refused;
          }
          roles := a.roles + COMMA + Join(missing, COMMA);
        }
        if !Saves(users, l, a) {
          return Failed;
        }
        var b := a.(methods := methods, roles := roles);
        users := users[l.email := b];
        o := Resolved(b, false);
      }
    }
  }

  // ---------------------------------------------------------------- what one login may do

  /** Nobody else's account is touched. */
  lemma OthersUntouched(users: Users, cfg: Config, l: Login, found: Option<Account>, email: Str)
    requires email != l.email
    ensures email in Decide(users, cfg, l, found).users <==> email in users
    ensures email in users ==> Decide(users, cfg, l, found).users[email] == users[email]
  {
  }

  /** The login hands over an account that was there only if, when it was read, the address proved it or the provider owned it. */
  lemma SelectsOnlyItsOwn(users: Users, cfg: Config, l: Login, found: Option<Account>)
    requires Decide(users, cfg, l, found).outcome.Resolved?
    ensures var r := Decide(users, cfg, l, found);
            && l.email in r.users && r.users[l.email] == r.outcome.account && !r.outcome.account.revoked
            && (!r.outcome.isSignUp ==>
                  && found.Some? && found.value.id == r.outcome.account.id && !found.value.revoked
                  && r.outcome.account.verifiedAt == found.value.verifiedAt
                  && ((l.attested && found.value.verifiedAt.Some?) || Owns(found.value.methods, l.provider)))
            && (r.outcome.isSignUp ==> r.outcome.account.id == l.newId && r.outcome.account.methods == l.provider)
            && (r.outcome.isSignUp ==> cfg.enableSignup || (found.Some? && Squatter(found.value, l.provider)))
            && (!l.attested ==> cfg.allowUnverified)
  {
  }

  /** An account that a login creates is the provider's, with the roles asked for, and verified then and there exactly if the address is attested. */
  lemma SignUpExactly(users: Users, cfg: Config, l: Login, found: Option<Account>)
    requires Decide(users, cfg, l, found).outcome.Resolved? && Decide(users, cfg, l, found).outcome.isSignUp
    ensures Decide(users, cfg, l, found).outcome.account ==
            Account(l.newId, if l.attested then Some(l.now) else None, false, l.provider, l.roles)
  {
  }

  /** Nothing in storage fails. */
  predicate AllWorks(l: Login) { !l.findFails && !l.addFails && !l.deleteFails && !l.updateFails }

  /** None of these roles is protected, unless the account has it already. */
  ghost predicate MayHave(cfg: Config, requested: seq<Str>, has: seq<Str>) {
    forall r :: r in requested && r in cfg.protectedRoles ==> r in has
  }

  /** What a fault leaves: no link without the update, no account without the insertion, nothing removed without the deletion. */
  lemma FaultsExactly(users: Users, cfg: Config, l: Login, found: Option<Account>)
    ensures var r := Decide(users, cfg, l, found);
            && (l.updateFails && r.outcome.Resolved? ==> r.outcome.isSignUp)
            && (l.addFails && r.outcome.Resolved? ==> !r.outcome.isSignUp)
            && (l.deleteFails && l.email in users ==> l.email in r.users && r.users[l.email].id == users[l.email].id)
            && (r.outcome.Refused? && !(found.Some? && Squatter(found.value, l.provider)) ==> r.users == users)
  {
  }

  /** When a login to an unknown address makes an account. */
  lemma NewcomerExactly(users: Users, cfg: Config, l: Login)
    requires l.email !in users && AllWorks(l)
    ensures SocialLogin(users, cfg, l).outcome.Resolved? <==>
            (l.attested || cfg.allowUnverified) && cfg.enableSignup && MayHave(cfg, Split(l.roles, COMMA), [])
    ensures SocialLogin(users, cfg, l).outcome.Resolved? ==> SocialLogin(users, cfg, l).outcome.isSignUp
  {
  }

  /** When a login goes on with the account that is there, and when it takes its place. */
  lemma KnownExactly(users: Users, cfg: Config, l: Login)
    requires l.email in users && AllWorks(l)
    ensures var a := users[l.email]; var o := SocialLogin(users, cfg, l).outcome; var owns := Owns(a.methods, l.provider);
            && (o.Resolved? && !o.isSignUp <==>
                && !a.revoked && (a.verifiedAt.Some? || owns) && (l.attested || (cfg.allowUnverified && owns))
                && MayHave(cfg, Split(l.roles, COMMA), Split(a.roles, COMMA)))
            && (o.Resolved? && o.isSignUp <==>
                && !a.revoked && a.verifiedAt.None? && !owns && l.attested
                && !HasState(a.id, l.lookups, cfg.engine) && MayHave(cfg, Split(l.roles, COMMA), []))
  {
  }

  /**
    Two logins to one address, the second by any provider and attested, with
    nothing failing: the second resolves the same account exactly if the first
    left it verified or its provider's own.
   */
  lemma SecondLogin(users: Users, cfg: Config, l: Login, next: Login)
    requires SocialLogin(users, cfg, l).outcome.Resolved? && next.email == l.email && next.attested && AllWorks(next)
    requires SocialLogin(users, cfg, l).outcome.account.id != next.newId
    requires MayHave(cfg, Split(next.roles, COMMA), Split(SocialLogin(users, cfg, l).outcome.account.roles, COMMA))
    ensures var r := SocialLogin(users, cfg, l); var a := r.outcome.account; var o := SocialLogin(r.users, cfg, next).outcome;
            o.Resolved? && o.account.id == a.id <==> a.verifiedAt.Some? || Owns(a.methods, next.provider)
  {
    var r := SocialLogin(users, cfg, l);
    SelectsOnlyItsOwn(users, cfg, l, Found(users, l));
    KnownExactly(r.users, cfg, next);
    if SocialLogin(r.users, cfg, next).outcome.Resolved? {
      SelectsOnlyItsOwn(r.users, cfg, next, Found(r.users, next));
    }
  }

  /** So an attested newcomer is found again by every attested provider. */
  lemma NewcomerFoundAgain(users: Users, cfg: Config, l: Login, next: Login)
    requires SocialLogin(users, cfg, l).outcome.Resolved? && SocialLogin(users, cfg, l).outcome.isSignUp && l.attested
    requires next.email == l.email && next.attested && AllWorks(next) && next.newId != l.newId
    requires MayHave(cfg, Split(next.roles, COMMA), Split(l.roles, COMMA))
    ensures var o := SocialLogin(SocialLogin(users, cfg, l).users, cfg, next).outcome; o.Resolved? && o.account.id == l.newId
  {
    SignUpExactly(users, cfg, l, Found(users, l));
    SecondLogin(users, cfg, l, next);
  }

  /**
    It is not so of an account that an unattested login made: an attested login by
    its own provider leaves it unverified, and one by another provider then takes
    its place, if it is empty.
   */
  lemma OwnLoginDoesNotVerify(users: Users, cfg: Config, l: Login, next: Login)
    requires l.email in users && users[l.email].verifiedAt.None? && AllWorks(l) && l.attested
    requires SocialLogin(users, cfg, l).outcome.Resolved? && !SocialLogin(users, cfg, l).outcome.isSignUp
    requires next.email == l.email && next.attested && AllWorks(next) && MayHave(cfg, Split(next.roles, COMMA), [])
    requires var a := SocialLogin(users, cfg, l).outcome.account;
             !Owns(a.methods, next.provider) && !HasState(a.id, next.lookups, cfg.engine)
    ensures var o := SocialLogin(SocialLogin(users, cfg, l).users, cfg, next).outcome;
            o.Resolved? && o.isSignUp && o.account.id == next.newId
  {
    var r := SocialLogin(users, cfg, l);
    SelectsOnlyItsOwn(users, cfg, l, Found(users, l));
    KnownExactly(r.users, cfg, next);
    SignUpExactly(r.users, cfg, next, Found(r.users, next));
  }

  /** An address becomes verified only in a login whose provider attested it, or because it was so when it was read. */
  lemma VerifiedByAttestation(users: Users, cfg: Config, l: Login, found: Option<Account>, email: Str)
    requires email in Decide(users, cfg, l, found).users
    requires var a := Decide(users, cfg, l, found).users[email];
             a.verifiedAt.Some? && (email !in users || users[email].verifiedAt != a.verifiedAt)
    ensures var a := Decide(users, cfg, l, found).users[email];
            && email == l.email
            && (|| (l.attested && a.id == l.newId && a.verifiedAt == Some(l.now))
                || (found.Some? && a.id == found.value.id && a.verifiedAt == found.value.verifiedAt))
  {
  }

  /** With nothing in between, only the first. */
  lemma AttestedAtOnce(users: Users, cfg: Config, l: Login, email: Str)
    requires email in SocialLogin(users, cfg, l).users
    requires var a := SocialLogin(users, cfg, l).users[email];
             a.verifiedAt.Some? && (email !in users || users[email].verifiedAt != a.verifiedAt)
    ensures email == l.email && l.attested && SocialLogin(users, cfg, l).users[email].verifiedAt == Some(l.now)
  {
  }

  /**
    An account is destroyed only if, when it was read, it was unverified, another
    method's and not revoked, and, as far as storage can tell, it is empty.
   */
  lemma DestroysOnlySquatters(users: Users, cfg: Config, l: Login, found: Option<Account>, email: Str, h: Holdings)
    requires email in users && users[email].id != [] && users[email].id != l.newId
    requires Truthful(l.lookups, h)
    requires var r := Decide(users, cfg, l, found).users; email !in r || r[email].id != users[email].id
    ensures email == l.email && l.attested
    ensures found.Some? && found.value.id == users[email].id
    ensures Squatter(found.value, l.provider) && !found.value.revoked && !Holds(h, cfg.engine)
  {
  }

  /** The roles put in the token are held by the account; none it had when read was lost, and no protected one gained since. */
  lemma RolesGrowSafely(users: Users, cfg: Config, l: Login, found: Option<Account>)
    requires Decide(users, cfg, l, found).outcome.Resolved?
    ensures var o := Decide(users, cfg, l, found).outcome; var held := Split(o.account.roles, COMMA);
            && (forall r :: r in Split(l.roles, COMMA) ==> r in held)
            && (!o.isSignUp ==>
                  && found.Some? && Split(found.value.roles, COMMA) <= held
                  && forall r :: r in held && r in cfg.protectedRoles ==> r in Split(found.value.roles, COMMA))
            && (o.isSignUp ==> !AnyOf(held, cfg.protectedRoles))
  {
    var o := Decide(users, cfg, l, found).outcome;
    if !o.isSignUp {
      SplitPartsLackChar(l.roles, ',');
      ExtendedParts(found.value.roles, Split(l.roles, COMMA));
    }
  }

  /** No method it had when read is lost; the provider owns what it resolved, if the stored list was clear, and the list stays so. */
  lemma MethodsGrowSafely(users: Users, cfg: Config, l: Login, found: Option<Account>)
    requires Decide(users, cfg, l, found).outcome.Resolved? && IsProvider(l.provider)
    ensures var o := Decide(users, cfg, l, found).outcome;
            && Linked(o.account.methods, l.provider) == o.account.methods
            && (o.isSignUp ==> ClearList(o.account.methods) && Owns(o.account.methods, l.provider))
            && (!o.isSignUp ==>
                  && found.Some? && Split(found.value.methods, COMMA) <= Split(o.account.methods, COMMA)
                  && (Owns(o.account.methods, l.provider) <==>
                      Owns(found.value.methods, l.provider) || !Contains(found.value.methods, l.provider))
                  && (ClearList(found.value.methods) ==> ClearList(o.account.methods) && Owns(o.account.methods, l.provider)))
  {
    var o := Decide(users, cfg, l, found).outcome;
    MethodIsPlain(l.provider);
    if o.isSignUp {
      ProviderAlone(l.provider);
    } else {
      LinkedOwns(found.value.methods, l.provider);
      if ClearList(found.value.methods) {
        LinkedClear(found.value.methods, l.provider);
      }
    }
  }

  lemma ProviderAlone(provider: Str)
    requires IsProvider(provider)
    ensures ClearList(provider) && Owns(provider, provider)
    ensures Linked(provider, provider) == provider
  {
    MethodIsPlain(provider);
    CleanChar(provider, ',');
    SplitWhole(provider, COMMA);
    ContainsItself(provider);
    StoredIsClear(provider);
  }

  /** A login finds an account it may have, which already has the method and the roles. */
  lemma NothingToDo(users: Users, cfg: Config, l: Login, a: Account)
    requires l.email in users && users[l.email] == a && !a.revoked && MaySelect(cfg, l, Some(a)) && !Squatter(a, l.provider)
    requires Linked(a.methods, l.provider) == a.methods
    requires forall r :: r in Split(l.roles, COMMA) ==> r in Split(a.roles, COMMA)
    requires !l.findFails && !l.updateFails
    ensures SocialLogin(users, cfg, l) == Result(Resolved(a, false), users)
  {
    NothingMissing(Split(l.roles, COMMA), Split(a.roles, COMMA));
  }

  /** Logging in again the same way resolves the same account and leaves it byte for byte as it is, whatever was stored. */
  lemma LoginAgain(users: Users, cfg: Config, l: Login, again: Login)
    requires SocialLogin(users, cfg, l).outcome.Resolved? && IsProvider(l.provider)
    requires again.provider == l.provider && again.email == l.email && again.roles == l.roles && again.attested == l.attested
    requires !again.findFails && !again.updateFails
    ensures var r := SocialLogin(users, cfg, l);
            SocialLogin(r.users, cfg, again) == Result(Resolved(r.outcome.account, false), r.users)
  {
    var r := SocialLogin(users, cfg, l);
    var found := Found(users, l);
    MethodsGrowSafely(users, cfg, l, found);
    RolesGrowSafely(users, cfg, l, found);
    SelectsOnlyItsOwn(users, cfg, l, found);
    NothingToDo(r.users, cfg, again, r.outcome.account);
  }

  // ---------------------------------------------------------------- a row that was read too early

  ghost predicate AllIn(xs: seq<Str>, ys: seq<Str>) {
    forall x :: x in xs ==> x in ys
  }

  /** The protected ones among these are all there. */
  ghost predicate ProtectedIn(cfg: Config, xs: seq<Str>, ys: seq<Str>) {
    forall x :: x in xs && x in cfg.protectedRoles ==> x in ys
  }

  /** The login goes on with an account that is stored. */
  ghost predicate Continues(users: Users, cfg: Config, l: Login, found: Option<Account>) {
    var o := Decide(users, cfg, l, found).outcome;
    l.email in users && o.Resolved? && !o.isSignUp
  }

  /** What the login writes is the row it read, with the provider and the missing roles appended. */
  lemma Written(users: Users, cfg: Config, l: Login, found: Option<Account>)
    requires Continues(users, cfg, l, found)
    ensures found.Some?
    ensures var read := found.value;
            && Decide(users, cfg, l, found).outcome.account ==
               read.(methods := Linked(read.methods, l.provider), roles := Extended(read.roles, Split(l.roles, COMMA)))
            && read.id == users[l.email].id && !read.revoked
            && !AnyOf(Unassigned(Split(l.roles, COMMA), Split(read.roles, COMMA)), cfg.protectedRoles)
  {
  }

  lemma WrittenParts(read: Account, l: Login)
    requires IsProvider(l.provider)
    ensures Split(Extended(read.roles, Split(l.roles, COMMA)), COMMA) ==
            Split(read.roles, COMMA) + Unassigned(Split(l.roles, COMMA), Split(read.roles, COMMA))
    ensures Split(Linked(read.methods, l.provider), COMMA) ==
            Split(read.methods, COMMA) + (if Contains(read.methods, l.provider) then [] else [l.provider])
  {
    SplitPartsLackChar(l.roles, ',');
    ExtendedParts(read.roles, Split(l.roles, COMMA));
    MethodIsPlain(l.provider);
    LinkedParts(read.methods, l.provider);
  }

  /**
    What a login does to the stored row, which may have changed since it was
    read. The revocation stays exactly if there was none to lose; the
    verification, exactly if it was read as it is; a stored role is kept exactly
    if it was read or is asked for, a stored method exactly if it was read or is
    the one appended; and no protected role comes back exactly if none was read
    that has been taken away since.
   */
  lemma StoredKeptExactly(users: Users, cfg: Config, l: Login, found: Option<Account>)
    requires Continues(users, cfg, l, found) && IsProvider(l.provider)
    ensures found.Some?
    ensures var stored := users[l.email]; var read := found.value; var left := Decide(users, cfg, l, found).outcome.account;
            && (left.revoked == stored.revoked <==> !stored.revoked)
            && (left.verifiedAt == stored.verifiedAt <==> read.verifiedAt == stored.verifiedAt)
            && (AllIn(Split(stored.roles, COMMA), Split(left.roles, COMMA)) <==>
                AllIn(Split(stored.roles, COMMA), Split(read.roles, COMMA) + Split(l.roles, COMMA)))
            && (ProtectedIn(cfg, Split(left.roles, COMMA), Split(stored.roles, COMMA)) <==>
                ProtectedIn(cfg, Split(read.roles, COMMA), Split(stored.roles, COMMA)))
            && (AllIn(Split(stored.methods, COMMA), Split(left.methods, COMMA)) <==>
                AllIn(Split(stored.methods, COMMA),
                      Split(read.methods, COMMA) + (if Contains(read.methods, l.provider) then [] else [l.provider])))
  {
    Written(users, cfg, l, found);
    WrittenParts(found.value, l);
    var read := found.value;
    SameMembers(Split(read.roles, COMMA), Split(l.roles, COMMA));
    ProtectedOf(cfg, Split(read.roles, COMMA), Unassigned(Split(l.roles, COMMA), Split(read.roles, COMMA)),
                Split(users[l.email].roles, COMMA));
  }

  lemma SameMembers(had: seq<Str>, requested: seq<Str>)
    ensures forall x :: x in had + Unassigned(requested, had) <==> x in had + requested
  {
  }

  lemma ProtectedOf(cfg: Config, had: seq<Str>, missing: seq<Str>, stored: seq<Str>)
    requires !AnyOf(missing, cfg.protectedRoles)
    ensures ProtectedIn(cfg, had + missing, stored) <==> ProtectedIn(cfg, had, stored)
  {
  }

  /** No role lost, nor moved, and no protected one gained. */
  ghost predicate RolesKept(cfg: Config, a: Account, b: Account) {
    Split(a.roles, COMMA) <= Split(b.roles, COMMA) && ProtectedIn(cfg, Split(b.roles, COMMA), Split(a.roles, COMMA))
  }

  ghost predicate MethodsKept(a: Account, b: Account) {
    Split(a.methods, COMMA) <= Split(b.methods, COMMA)
  }

  /** Agreement in a field is enough to keep what is stored there, in place and in order. */
  lemma AgreementKeeps(users: Users, cfg: Config, l: Login, found: Option<Account>)
    requires Continues(users, cfg, l, found) && IsProvider(l.provider)
    ensures found.Some?
    ensures var stored := users[l.email]; var read := found.value; var left := Decide(users, cfg, l, found).outcome.account;
            && (read.roles == stored.roles ==> RolesKept(cfg, stored, left))
            && (read.methods == stored.methods ==> MethodsKept(stored, left))
            && (read.revoked == stored.revoked <==> left.revoked == stored.revoked)
  {
    Written(users, cfg, l, found);
    WrittenParts(found.value, l);
    var had := Split(found.value.roles, COMMA);
    ProtectedOf(cfg, had, Unassigned(Split(l.roles, COMMA), had), had);
  }

  /**
    It is not needed: two callbacks for the same login that both read the row
    before either wrote leave what one of them alone would, although the second
    finds a row stored that it did not read.
   */
  lemma TwiceAtOnce(users: Users, cfg: Config, l: Login, found: Option<Account>)
    requires Continues(users, cfg, l, found)
    ensures var once := Decide(users, cfg, l, found); Decide(once.users, cfg, l, found) == once
  {
    var once := Decide(users, cfg, l, found);
    assert once.users[l.email := once.outcome.account] == once.users;
  }

  // ---------------------------------------------------------------- whole runs

  datatype Event =
    | Attested(id: Str)            // a login whose provider vouched for the address
    | Confirmed(id: Str)           // the user confirmed the address by other means
    | Granted(id: Str, roles: Str) // an administrator set the roles

  /** A callback between its lookup and the rest. */
  datatype Seen = Seen(l: Login, found: Option<Account>)

  /** The accounts, the address each id was drawn for, the callbacks under way, and what has happened. */
  datatype State = State(users: Users, ids: map<Str, Str>, inFlight: multiset<Seen>, log: seq<Event>)

  datatype Step =
    | Find(l: Login)                         // the lookup of a callback
    | Commit(seen: Seen)                     // and the rest, on what it found then
    | Register(email: Str, account: Account) // sign-up by some other method
    | Confirm(email: Str, now: int)
    | SetRoles(email: Str, roles: Str)
    | SetMethods(email: Str, methods: Str)
    | SetRevoked(email: Str, revoked: bool)
    | Remove(email: Str)

  /** Ids are drawn afresh, and no one signs up with a protected role or a confirmed address. */
  ghost predicate Enabled(s: State, cfg: Config, step: Step) {
    match step
    case Find(l) => IsProvider(l.provider)
    case Commit(seen) => seen in s.inFlight && seen.l.newId != [] && seen.l.newId !in s.ids
    case Register(email, a) =>
      && email !in s.users && a.id != [] && a.id !in s.ids && a.verifiedAt.None?
      && ClearList(a.methods) && !AnyOf(Split(a.roles, COMMA), cfg.protectedRoles)
    case SetMethods(email, methods) => email in s.users && ClearList(methods)
    case _ => step.email in s.users
  }

  ghost function Apply(s: State, cfg: Config, step: Step): State
    requires Enabled(s, cfg, step)
  {
    match step
    case Find(l) => s.(inFlight := s.inFlight + multiset{Seen(l, Found(s.users, l))})
    case Commit(seen) =>
      var r := Decide(s.users, cfg, seen.l, seen.found);
      State(r.users, s.ids[seen.l.newId := seen.l.email], s.inFlight - multiset{seen},
            if seen.l.attested && r.outcome.Resolved? then s.log + [Attested(r.outcome.account.id)] else s.log)
    case Register(email, a) => s.(users := s.users[email := a], ids := s.ids[a.id := email])
    case Confirm(email, now) =>
      s.(users := s.users[email := s.users[email].(verifiedAt := Some(now))], log := s.log + [Confirmed(s.users[email].id)])
    case SetRoles(email, roles) =>
      s.(users := s.users[email := s.users[email].(roles := roles)], log := s.log + [Granted(s.users[email].id, roles)])
    case SetMethods(email, methods) => s.(users := s.users[email := s.users[email].(methods := methods)])
    case SetRevoked(email, revoked) => s.(users := s.users[email := s.users[email].(revoked := revoked)])
    case Remove(email) => s.(users := s.users - {email})
  }

  ghost predicate Run(s: State, cfg: Config, steps: seq<Step>)
    decreases |steps|
  {
    steps == [] || (Enabled(s, cfg, steps[0]) && Run(Apply(s, cfg, steps[0]), cfg, steps[1..]))
  }

  ghost function After(s: State, cfg: Config, steps: seq<Step>): State
    requires Run(s, cfg, steps)
    decreases |steps|
  {
    if steps == [] then s else After(Apply(s, cfg, steps[0]), cfg, steps[1..])
  }

  /** Somebody vouched for the address of this account. */
  ghost predicate Vouched(log: seq<Event>, id: Str) {
    Attested(id) in log || Confirmed(id) in log
  }

  ghost predicate GivenByAdmin(log: seq<Event>, id: Str, role: Str) {
    exists roles :: Granted(id, roles) in log && role in Split(roles, COMMA)
  }

  /** A row, stored or read, that belongs to this address. */
  ghost predicate AccountOK(s: State, cfg: Config, email: Str, a: Account) {
    && a.id in s.ids && s.ids[a.id] == email && a.id != [] && ClearList(a.methods)
    && (a.verifiedAt.Some? ==> Vouched(s.log, a.id))
    && forall r :: r in Split(a.roles, COMMA) && r in cfg.protectedRoles ==> GivenByAdmin(s.log, a.id, r)
  }

  ghost predicate SeenOK(s: State, cfg: Config, seen: Seen) {
    IsProvider(seen.l.provider) && (seen.found.Some? ==> AccountOK(s, cfg, seen.l.email, seen.found.value))
  }

  ghost predicate Inv(s: State, cfg: Config) {
    && (forall e :: e in s.users ==> AccountOK(s, cfg, e, s.users[e]))
    && (forall seen :: seen in s.inFlight ==> SeenOK(s, cfg, seen))
  }

  /** Ids and log only grow. */
  ghost predicate Grows(s: State, t: State) {
    s.log <= t.log && forall id :: id in s.ids ==> id in t.ids && t.ids[id] == s.ids[id]
  }

  lemma OKGrows(s: State, t: State, cfg: Config, email: Str, a: Account)
    requires AccountOK(s, cfg, email, a) && Grows(s, t)
    ensures AccountOK(t, cfg, email, a)
  {
  }

  /** A step that changes at most one account keeps the invariant if that account is in order. */
  lemma ChangeKeeps(s: State, t: State, cfg: Config, email: Str)
    requires Inv(s, cfg) && Grows(s, t) && t.inFlight <= s.inFlight
    requires email in t.users ==> AccountOK(t, cfg, email, t.users[email])
    requires forall e :: e in t.users && e != email ==> e in s.users && t.users[e] == s.users[e]
    ensures Inv(t, cfg)
  {
  }

  /** The account a login leaves under its address is in order. */
  lemma ResolvedOK(s: State, cfg: Config, seen: Seen)
    requires Inv(s, cfg) && Enabled(s, cfg, Commit(seen)) && Decide(s.users, cfg, seen.l, seen.found).outcome.Resolved?
    ensures AccountOK(Apply(s, cfg, Commit(seen)), cfg, seen.l.email, Decide(s.users, cfg, seen.l, seen.found).outcome.account)
  {
    var l, found := seen.l, seen.found;
    var t := Apply(s, cfg, Commit(seen));
    var o := Decide(s.users, cfg, l, found).outcome;
    assert SeenOK(s, cfg, seen);
    MethodsGrowSafely(s.users, cfg, l, found);
    RolesGrowSafely(s.users, cfg, l, found);
    SelectsOnlyItsOwn(s.users, cfg, l, found);
    if o.isSignUp {
      SignUpExactly(s.users, cfg, l, found);
      assert l.attested ==> t.log[|s.log|] == Attested(o.account.id);
    } else {
      OKGrows(s, t, cfg, l.email, found.value);
    }
  }

  /** A login that resolves nothing leaves its account as it was, or gone. */
  lemma UnresolvedOnlyLoses(users: Users, cfg: Config, l: Login, found: Option<Account>)
    requires !Decide(users, cfg, l, found).outcome.Resolved?
    ensures var r := Decide(users, cfg, l, found).users; forall e :: e in r ==> e in users && r[e] == users[e]
  {
  }

  lemma CommitKeeps(s: State, cfg: Config, seen: Seen)
    requires Inv(s, cfg) && Enabled(s, cfg, Commit(seen))
    ensures Inv(Apply(s, cfg, Commit(seen)), cfg)
  {
    var t := Apply(s, cfg, Commit(seen));
    var l, found := seen.l, seen.found;
    forall e | e in t.users && e != l.email
      ensures e in s.users && t.users[e] == s.users[e]
    {
      OthersUntouched(s.users, cfg, l, found, e);
    }
    if Decide(s.users, cfg, l, found).outcome.Resolved? {
      ResolvedOK(s, cfg, seen);
      SelectsOnlyItsOwn(s.users, cfg, l, found);
    } else {
      UnresolvedOnlyLoses(s.users, cfg, l, found);
      if l.email in t.users {
        OKGrows(s, t, cfg, l.email, s.users[l.email]);
      }
    }
    ChangeKeeps(s, t, cfg, l.email);
  }

  lemma FindKeeps(s: State, cfg: Config, l: Login)
    requires Inv(s, cfg) && IsProvider(l.provider)
    ensures Inv(Apply(s, cfg, Find(l)), cfg)
  {
  }

  lemma AdminKeeps(s: State, cfg: Config, step: Step)
    requires Inv(s, cfg) && Enabled(s, cfg, step) && (step.Confirm? || step.SetRoles? || step.SetMethods? || step.SetRevoked?)
    ensures Inv(Apply(s, cfg, step), cfg)
  {
    var t := Apply(s, cfg, step);
    OKGrows(s, t, cfg, step.email, s.users[step.email]);
    assert step.Confirm? ==> t.log[|s.log|] == Confirmed(s.users[step.email].id);
    assert step.SetRoles? ==> t.log[|s.log|] == Granted(s.users[step.email].id, step.roles);
    ChangeKeeps(s, t, cfg, step.email);
  }

  lemma StepKeeps(s: State, cfg: Config, step: Step)
    requires Inv(s, cfg) && Enabled(s, cfg, step)
    ensures Inv(Apply(s, cfg, step), cfg)
  {
    match step
    case Find(l) => FindKeeps(s, cfg, l);
    case Commit(seen) => CommitKeeps(s, cfg, seen);
    case Register(email, a) => ChangeKeeps(s, Apply(s, cfg, step), cfg, email);
    case Remove(email) => ChangeKeeps(s, Apply(s, cfg, step), cfg, email);
    case _ => AdminKeeps(s, cfg, step);
  }

  lemma {:induction false} RunKeeps(s: State, cfg: Config, steps: seq<Step>)
    requires Inv(s, cfg) && Run(s, cfg, steps)
    ensures Inv(After(s, cfg, steps), cfg)
    decreases |steps|
  {
    if steps != [] {
      StepKeeps(s, cfg, steps[0]);
      RunKeeps(Apply(s, cfg, steps[0]), cfg, steps[1..]);
    }
  }

  const NOBODY: State := State(map[], map[], multiset{}, [])

  /**
    After any run of logins, interleaved between their lookup and the rest, and
    of administration: a verified address was vouched for, for that very account;
    a protected role was given to that very account by an administrator; and the
    substring test made when a provider is appended is exact.
   */
  lemma AccountsSound(cfg: Config, steps: seq<Step>, email: Str, provider: Str, role: Str)
    requires Run(NOBODY, cfg, steps) && email in After(NOBODY, cfg, steps).users && IsProvider(provider)
    ensures var t := After(NOBODY, cfg, steps); var a := t.users[email];
            && (a.verifiedAt.Some? ==> Vouched(t.log, a.id))
            && (role in Split(a.roles, COMMA) && role in cfg.protectedRoles ==> GivenByAdmin(t.log, a.id, role))
            && (Contains(a.methods, provider) <==> Owns(a.methods, provider))
  {
    RunKeeps(NOBODY, cfg, steps);
    var a := After(NOBODY, cfg, steps).users[email];
    assert AccountOK(After(NOBODY, cfg, steps), cfg, email, a);
    TestsAgree(a.methods, provider);
  }

  // ---------------------------------------------------------------- verified accounts

  /** The account is verified, and every callback under way that has read it saw it so. */
  ghost predicate Settled(s: State, email: Str, id: Str) {
    && email in s.users && s.users[email].id == id && s.users[email].verifiedAt.Some?
    && forall seen :: seen in s.inFlight && seen.l.email == email && seen.found.Some? && seen.found.value.id == id ==>
                        seen.found.value.verifiedAt.Some?
  }

  lemma CommitSpares(users: Users, cfg: Config, l: Login, found: Option<Account>, email: Str)
    requires email in users && users[email].verifiedAt.Some?
    requires l.email == email && found.Some? && found.value.id == users[email].id ==> found.value.verifiedAt.Some?
    ensures var r := Decide(users, cfg, l, found).users;
            email in r && r[email].id == users[email].id && r[email].verifiedAt.Some?
  {
  }

  lemma StepSpares(s: State, cfg: Config, step: Step, email: Str, id: Str)
    requires Enabled(s, cfg, step) && step != Remove(email) && Settled(s, email, id)
    ensures Settled(Apply(s, cfg, step), email, id)
  {
    if step.Commit? {
      CommitSpares(s.users, cfg, step.seen.l, step.seen.found, email);
    }
  }

  /** A verified account outlives every step but its own removal, under the same id, unless a callback under way saw it unverified. */
  lemma {:induction false} VerifiedSurvives(s: State, cfg: Config, steps: seq<Step>, email: Str, id: Str)
    requires Run(s, cfg, steps) && Remove(email) !in steps && Settled(s, email, id)
    ensures Settled(After(s, cfg, steps), email, id)
    decreases |steps|
  {
    if steps != [] {
      assert steps[0] in steps;
      StepSpares(s, cfg, steps[0], email, id);
      VerifiedSurvives(Apply(s, cfg, steps[0]), cfg, steps[1..], email, id);
    }
  }

  /**
    The exception is real: an empty account that is confirmed between the lookup
    and the rest of an attested login is replaced all the same.
   */
  lemma StaleReadDestroys(s: State, cfg: Config, l: Login, now: int)
    requires l.email in s.users && IsProvider(l.provider) && l.attested
    requires l.newId != [] && l.newId !in s.ids && l.newId != s.users[l.email].id
    requires var a := s.users[l.email]; Squatter(a, l.provider) && !a.revoked && !HasState(a.id, l.lookups, cfg.engine)
    requires !l.findFails && !l.deleteFails && !l.addFails && !AnyOf(Split(l.roles, COMMA), cfg.protectedRoles)
    ensures var found := Apply(s, cfg, Find(l));
            && Enabled(found, cfg, Confirm(l.email, now))
            && var confirmed := Apply(found, cfg, Confirm(l.email, now)); var commit := Commit(Seen(l, Some(s.users[l.email])));
               && confirmed.users[l.email].verifiedAt.Some? && Enabled(confirmed, cfg, commit)
               && l.email in Apply(confirmed, cfg, commit).users
               && Apply(confirmed, cfg, commit).users[l.email].id == l.newId
  {
  }

  // ---------------------------------------------------------------- changes that a login undoes

  /** A login that would go on with the account now stored. */
  ghost predicate MayContinue(s: State, cfg: Config, l: Login) {
    Continues(s.users, cfg, l, Found(s.users, l)) && IsProvider(l.provider) && l.newId != [] && l.newId !in s.ids
  }

  /** What such a login, read now, will write. */
  ghost function ToWrite(s: State, cfg: Config, l: Login): Account
    requires MayContinue(s, cfg, l)
  {
    SocialLogin(s.users, cfg, l).outcome.account
  }

  /**
    Whatever runs between the lookup of a login and the rest, of this login or of
    anything else, the row ends as if nothing had happened to it in between, as
    long as it is there or the backend puts it back.
   */
  lemma LastWriteWins(s: State, cfg: Config, l: Login, between: seq<Step>)
    requires MayContinue(s, cfg, l) && Run(Apply(s, cfg, Find(l)), cfg, between)
    requires Enabled(After(Apply(s, cfg, Find(l)), cfg, between), cfg, Commit(Seen(l, Found(s.users, l))))
    requires Saves(After(Apply(s, cfg, Find(l)), cfg, between).users, l, s.users[l.email])
    ensures var t := After(Apply(s, cfg, Find(l)), cfg, between);
            Apply(t, cfg, Commit(Seen(l, Found(s.users, l)))).users == t.users[l.email := ToWrite(s, cfg, l)]
  {
    CommitWrites(s, cfg, l, After(Apply(s, cfg, Find(l)), cfg, between));
  }

  /** In any state, the rest of the login writes what was settled at its lookup. */
  lemma CommitWrites(s: State, cfg: Config, l: Login, t: State)
    requires MayContinue(s, cfg, l) && Enabled(t, cfg, Commit(Seen(l, Found(s.users, l))))
    requires Saves(t.users, l, s.users[l.email])
    ensures Apply(t, cfg, Commit(Seen(l, Found(s.users, l)))).users == t.users[l.email := ToWrite(s, cfg, l)]
  {
  }

  /** A change by an administrator, or a confirmation; or a removal, where a missing row is put back. */
  ghost predicate Changes(l: Login, change: Step) {
    && (|| change.Confirm? || change.SetRoles? || change.SetRevoked? || (change.SetMethods? && ClearList(change.methods))
        || (change.Remove? && l.upserts))
    && change.email == l.email
  }

  /** The lookup of a login, and then a change. */
  ghost function Changed(s: State, cfg: Config, l: Login, change: Step): State
    requires MayContinue(s, cfg, l) && Changes(l, change)
  {
    Apply(Apply(s, cfg, Find(l)), cfg, change)
  }

  lemma MayCommit(s: State, cfg: Config, l: Login, change: Step)
    requires MayContinue(s, cfg, l) && Changes(l, change)
    ensures Found(s.users, l) == Some(s.users[l.email])
    ensures Enabled(Changed(s, cfg, l, change), cfg, Commit(Seen(l, Found(s.users, l))))
    ensures Saves(Changed(s, cfg, l, change).users, l, s.users[l.email])
  {
  }

  /** And then the rest of the login: the change is undone. */
  ghost function Raced(s: State, cfg: Config, l: Login, change: Step): (t: State)
    requires MayContinue(s, cfg, l) && Changes(l, change)
    ensures t.users == s.users[l.email := ToWrite(s, cfg, l)]
  {
    MayCommit(s, cfg, l, change);
    StaleReadUndoes(s, cfg, l, change);
    Apply(Changed(s, cfg, l, change), cfg, Commit(Seen(l, Found(s.users, l))))
  }

  lemma StaleReadUndoes(s: State, cfg: Config, l: Login, change: Step)
    requires MayContinue(s, cfg, l) && Changes(l, change)
    requires Enabled(Changed(s, cfg, l, change), cfg, Commit(Seen(l, Found(s.users, l))))
    requires Saves(Changed(s, cfg, l, change).users, l, s.users[l.email])
    ensures Apply(Changed(s, cfg, l, change), cfg, Commit(Seen(l, Found(s.users, l)))).users ==
            s.users[l.email := ToWrite(s, cfg, l)]
  {
    CommitWrites(s, cfg, l, Changed(s, cfg, l, change));
    ChangedOnlyThere(s, cfg, l, change, ToWrite(s, cfg, l));
  }

  lemma ChangedOnlyThere(s: State, cfg: Config, l: Login, change: Step, a: Account)
    requires MayContinue(s, cfg, l) && Changes(l, change)
    ensures Changed(s, cfg, l, change).users[l.email := a] == s.users[l.email := a]
  {
  }

  /** What such a login is about to write: the same account, as it stood at the lookup. */
  lemma WritesOldRow(s: State, cfg: Config, l: Login)
    requires MayContinue(s, cfg, l)
    ensures var a := s.users[l.email]; var b := ToWrite(s, cfg, l);
            && b.id == a.id && !b.revoked && b.verifiedAt == a.verifiedAt && b.methods == Linked(a.methods, l.provider)
            && RolesKept(cfg, a, b)
  {
    Written(s.users, cfg, l, Found(s.users, l));
    AgreementKeeps(s.users, cfg, l, Found(s.users, l));
  }

  /** A protected role that an administrator takes away in between is held again. */
  lemma StaleReadRestoresRole(s: State, cfg: Config, l: Login, roles: Str, role: Str)
    requires MayContinue(s, cfg, l) && role in cfg.protectedRoles
    requires role in Split(s.users[l.email].roles, COMMA) && role !in Split(roles, COMMA)
    ensures var change := SetRoles(l.email, roles);
            && role !in Split(Changed(s, cfg, l, change).users[l.email].roles, COMMA)
            && role in Split(Raced(s, cfg, l, change).users[l.email].roles, COMMA)
  {
    WritesOldRow(s, cfg, l);
  }

  /** An account revoked in between is resolved, and is not revoked afterwards. */
  lemma StaleReadUnrevokes(s: State, cfg: Config, l: Login)
    requires MayContinue(s, cfg, l)
    ensures var change := SetRevoked(l.email, true);
            && Changed(s, cfg, l, change).users[l.email].revoked
            && Decide(Changed(s, cfg, l, change).users, cfg, l, Found(s.users, l)).outcome.Resolved?
            && !Raced(s, cfg, l, change).users[l.email].revoked
  {
    MayCommit(s, cfg, l, SetRevoked(l.email, true));
    WritesOldRow(s, cfg, l);
  }

  /** A confirmation made in between is forgotten. */
  lemma StaleReadForgetsConfirmation(s: State, cfg: Config, l: Login, now: int)
    requires MayContinue(s, cfg, l) && s.users[l.email].verifiedAt.None?
    ensures var change := Confirm(l.email, now);
            && Changed(s, cfg, l, change).users[l.email].verifiedAt == Some(now)
            && Raced(s, cfg, l, change).users[l.email].verifiedAt.None?
  {
    WritesOldRow(s, cfg, l);
  }

  lemma LinkedAlone(methods: Str, provider: Str, other: Str)
    requires IsProvider(provider) && other != provider && !Owns(methods, other)
    ensures !Owns(Linked(methods, provider), other)
  {
    MethodIsPlain(provider);
    LinkedParts(methods, provider);
  }

  /** Two callbacks have read the same row, and the other has written it. */
  ghost predicate Overlap(s: State, cfg: Config, l: Login, other: Login) {
    MayContinue(s, cfg, l) && MayContinue(s, cfg, other) && other.email == l.email && other.newId != l.newId
  }

  ghost function OtherFirst(s: State, cfg: Config, l: Login, other: Login): (t: State)
    requires Overlap(s, cfg, l, other)
    ensures t.users == s.users[l.email := ToWrite(s, cfg, other)]
    ensures Enabled(t, cfg, Commit(Seen(l, Found(s.users, l)))) && Saves(t.users, l, s.users[l.email])
  {
    var found := Apply(Apply(s, cfg, Find(l)), cfg, Find(other));
    Apply(found, cfg, Commit(Seen(other, Found(s.users, other))))
  }

  /** What the second writes is what it would have written alone. */
  lemma LaterCallbackWins(s: State, cfg: Config, l: Login, other: Login)
    requires Overlap(s, cfg, l, other)
    ensures Apply(OtherFirst(s, cfg, l, other), cfg, Commit(Seen(l, Found(s.users, l)))).users ==
            s.users[l.email := ToWrite(s, cfg, l)]
  {
    var t := OtherFirst(s, cfg, l, other);
    CommitWrites(s, cfg, l, t);
    assert t.users[l.email := ToWrite(s, cfg, l)] == s.users[l.email := ToWrite(s, cfg, l)];
  }

  /** A provider that another callback links in between owns the account, and then no longer does. */
  lemma StaleReadUnlinks(s: State, cfg: Config, l: Login, other: Login)
    requires Overlap(s, cfg, l, other) && l.provider != other.provider
    requires ClearList(s.users[l.email].methods) && !Owns(s.users[l.email].methods, other.provider)
    ensures var linked := OtherFirst(s, cfg, l, other);
            && Owns(linked.users[l.email].methods, other.provider)
            && var t := Apply(linked, cfg, Commit(Seen(l, Found(s.users, l))));
               l.email in t.users && !Owns(t.users[l.email].methods, other.provider)
  {
    LaterCallbackWins(s, cfg, l, other);
    WritesOldRow(s, cfg, l);
    WritesOldRow(s, cfg, other);
    LinkedAlone(s.users[l.email].methods, l.provider, other.provider);
    LinkedClear(s.users[l.email].methods, other.provider);
  }

  // ---------------------------------------------------------------- runs without such changes

  /** A login goes on only with the row as it is stored. */
  ghost predicate UpToDate(s: State, step: Step) {
    step.Commit? && step.seen.found.Some? ==>
      step.seen.l.email in s.users && s.users[step.seen.l.email] == step.seen.found.value
  }

  ghost predicate UpToDateRun(s: State, cfg: Config, steps: seq<Step>)
    requires Run(s, cfg, steps)
    decreases |steps|
  {
    steps == [] || (UpToDate(s, steps[0]) && UpToDateRun(Apply(s, cfg, steps[0]), cfg, steps[1..]))
  }

  ghost predicate Present(s: State, email: Str, id: Str) {
    email in s.users && s.users[email].id == id
  }

  /** An account that is gone does not come back. */
  lemma StepStaysGone(s: State, cfg: Config, step: Step, email: Str, id: Str)
    requires Enabled(s, cfg, step) && UpToDate(s, step) && id in s.ids && !Present(s, email, id)
    ensures id in Apply(s, cfg, step).ids && !Present(Apply(s, cfg, step), email, id)
  {
  }

  lemma {:induction false} StaysGone(s: State, cfg: Config, steps: seq<Step>, email: Str, id: Str)
    requires Run(s, cfg, steps) && UpToDateRun(s, cfg, steps) && id in s.ids && !Present(s, email, id)
    ensures !Present(After(s, cfg, steps), email, id)
    decreases |steps|
  {
    if steps != [] {
      StepStaysGone(s, cfg, steps[0], email, id);
      StaysGone(Apply(s, cfg, steps[0]), cfg, steps[1..], email, id);
    }
  }

  datatype Field = OfRoles | OfMethods | OfRevocation | OfVerification

  /** The step is there to change this field of this account. */
  predicate Sets(step: Step, email: Str, field: Field) {
    match field
    case OfRoles => step.SetRoles? && step.email == email
    case OfMethods => step.SetMethods? && step.email == email
    case OfRevocation => step.SetRevoked? && step.email == email
    case OfVerification => step.Confirm? && step.email == email
  }

  ghost predicate NoneSets(steps: seq<Step>, email: Str, field: Field) {
    forall x :: x in steps ==> !Sets(x, email, field)
  }

  /** The field is as it was, or has grown as a login may make it grow. */
  ghost predicate FieldKept(cfg: Config, a: Account, b: Account, field: Field) {
    match field
    case OfRoles => RolesKept(cfg, a, b)
    case OfMethods => MethodsKept(a, b)
    case OfRevocation => a.revoked == b.revoked
    case OfVerification => a.verifiedAt == b.verifiedAt
  }

  /** One step, on an account that it leaves in place: a field changes only by the step meant for it, or grows by a login. */
  lemma StepKeepsField(s: State, cfg: Config, step: Step, email: Str, id: Str, field: Field)
    requires Inv(s, cfg) && Enabled(s, cfg, step) && UpToDate(s, step) && id in s.ids
    requires Present(s, email, id) && Present(Apply(s, cfg, step), email, id) && !Sets(step, email, field)
    ensures FieldKept(cfg, s.users[email], Apply(s, cfg, step).users[email], field)
  {
    if step.Commit? && step.seen.l.email == email {
      CommitKeepsFields(s, cfg, step.seen, id);
    } else if step.Commit? {
      OthersUntouched(s.users, cfg, step.seen.l, step.seen.found, email);
    }
  }

  lemma CommitKeepsFields(s: State, cfg: Config, seen: Seen, id: Str)
    requires Inv(s, cfg) && Enabled(s, cfg, Commit(seen)) && UpToDate(s, Commit(seen)) && id in s.ids
    requires Present(s, seen.l.email, id) && Present(Apply(s, cfg, Commit(seen)), seen.l.email, id)
    ensures var a := s.users[seen.l.email]; var b := Apply(s, cfg, Commit(seen)).users[seen.l.email];
            && RolesKept(cfg, a, b) && MethodsKept(a, b) && a.revoked == b.revoked && a.verifiedAt == b.verifiedAt
  {
    var l, found := seen.l, seen.found;
    assert SeenOK(s, cfg, seen);
    if Continues(s.users, cfg, l, found) {
      AgreementKeeps(s.users, cfg, l, found);
      Written(s.users, cfg, l, found);
    } else if !Decide(s.users, cfg, l, found).outcome.Resolved? {
      UnresolvedOnlyLoses(s.users, cfg, l, found);
    } else {
      SelectsOnlyItsOwn(s.users, cfg, l, found);
      assert false;
    }
  }

  /**
    Over every run whose logins go on only with what is stored: an account that
    is there at both ends has lost no role and no method and has gained no
    protected role, and is revoked and verified as it was, except in a field
    that a step of the run was there to change. So a protected role that was
    taken away stays away, and a revocation stands.
   */
  lemma {:induction false} UpToDateRunKeeps(s: State, cfg: Config, steps: seq<Step>, email: Str, id: Str, field: Field)
    requires Inv(s, cfg) && Run(s, cfg, steps) && UpToDateRun(s, cfg, steps) && NoneSets(steps, email, field)
    requires Present(s, email, id) && Present(After(s, cfg, steps), email, id)
    ensures FieldKept(cfg, s.users[email], After(s, cfg, steps).users[email], field)
    decreases |steps|
  {
    if steps != [] {
      var t := Apply(s, cfg, steps[0]);
      assert AccountOK(s, cfg, email, s.users[email]);
      IdsStay(s, cfg, steps[0], id);
      if !Present(t, email, id) {
        StaysGone(t, cfg, steps[1..], email, id);
        assert false;
      }
      StepKeeps(s, cfg, steps[0]);
      assert steps[0] in steps && forall x :: x in steps[1..] ==> x in steps;
      StepKeepsField(s, cfg, steps[0], email, id, field);
      UpToDateRunKeeps(t, cfg, steps[1..], email, id, field);
    }
  }

  lemma IdsStay(s: State, cfg: Config, step: Step, id: Str)
    requires Enabled(s, cfg, step) && id in s.ids
    ensures id in Apply(s, cfg, step).ids
  {
  }
}
