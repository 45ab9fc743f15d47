/** Refreshing a user's groups and withdrawing tokens the user may no longer have:
    refreshAttributes of pkg/auth/providerrefresh/refresher.go. */
module AuthRefresh {
  import opened Basics
  import opened Maps
  import opened Text

  datatype User = User(name: string, principalIDs: seq<string>)

  datatype Token = Token(userID: string, isDerived: bool, authProvider: string, enabled: bool, description: string)

  /** Group principals by provider. */
  type Groups = map<string, seq<string>>

  /** What a provider says when asked for a user's groups; "no access" may come with groups too. */
  datatype Refetch = Fetched(items: seq<string>) | NoAccess(items: seq<string>) | Unreachable

  /** The configured providers and their answers. `access` and `secret` are absent when the lookup fails. */
  datatype Providers = Providers(
    names: set<string>,
    withSecrets: set<string>,
    unrefreshable: set<string>,
    secret: string -> Option<string>,
    refetch: (string, string, string) -> Refetch,
    access: (string, string, seq<string>) -> Option<bool>)

  function UserPrefix(provider: string): string {
    if provider == "local" then "local://" else provider + "_user://"
  }

  /** The user's first principal with the provider, or "". */
  function PrincipalFor(ids: seq<string>, provider: string): string {
    if ids == [] then ""
    else if HasPrefix(ids[0], UserPrefix(provider)) then ids[0]
    else PrincipalFor(ids[1..], provider)
  }

  // ---------- What one provider's answers mean ----------

  /** The provider confirms the user, refuses the user, cannot be asked, or a lookup failed. A user without a
      principal with the provider is refused without asking. */
  datatype Verdict = Confirmed(groups: seq<string>) | Refused(groups: seq<string>) | Unknown | Failure

  function Existing(groups: Groups, provider: string): seq<string> {
    if provider in groups then groups[provider] else []
  }

  function WithAccess(w: Providers, provider: string, principal: string, groups: seq<string>): Verdict {
    match w.access(provider, principal, groups)
    case None => Failure
    case Some(yes) => if yes then Confirmed(groups) else Refused(groups)
  }

  function VerdictOf(w: Providers, user: User, groups: Groups, provider: string): Verdict {
    var principal := PrincipalFor(user.principalIDs, provider);
    if principal == "" then Refused([])
    else if provider in w.withSecrets && w.secret(provider).None? then Failure
    else if provider in w.unrefreshable then WithAccess(w, provider, principal, Existing(groups, provider))
    else
      var secret := if provider in w.withSecrets then w.secret(provider).value else "";
      match w.refetch(provider, principal, secret)
      case Unreachable => Unknown
      case NoAccess(items) => Refused(items)
      case Fetched(items) => WithAccess(w, provider, principal, items)
  }

  // ---------- What a refresh should do ----------

  predicate IsLogin(t: Token, user: User) {
    t.userID == user.name && !t.isDerived
  }

  predicate IsDerivedOf(t: Token, user: User) {
    t.userID == user.name && t.isDerived
  }

  /** A login token goes when its provider is configured and refuses the user. */
  predicate Withdrawn(w: Providers, user: User, groups: Groups, t: Token) {
    IsLogin(t, user) && t.authProvider in w.names && VerdictOf(w, user, groups, t.authProvider).Refused?
  }

  /** Derived tokens are disabled when no provider confirms the user and every provider could be asked. */
  ghost predicate LockedOut(w: Providers, user: User, groups: Groups) {
    forall provider :: provider in w.names ==>
      !VerdictOf(w, user, groups, provider).Confirmed? && !VerdictOf(w, user, groups, provider).Unknown?
  }

  predicate Settles(v: Verdict) {
    v.Confirmed? || v.Refused?
  }

  /** The groups the providers reported. */
  ghost function Reported(w: Providers, user: User, groups: Groups, done: set<string>): Groups {
    map provider | provider in done && Settles(VerdictOf(w, user, groups, provider)) ::
        VerdictOf(w, user, groups, provider).groups
  }

  /** Every configured provider but the unreachable ones gets the groups it reported. */
  ghost function RefreshedGroups(w: Providers, user: User, groups: Groups, done: set<string>): Groups {
    groups + Reported(w, user, groups, done)
  }

  /** The token store after a refresh: `listed` are the tokens the lister returned. */
  ghost function RefreshedTokens(w: Providers, user: User, groups: Groups, listed: map<string, Token>,
                                 tokens: map<string, Token>): map<string, Token>
  {
    map name | name in tokens && !(name in listed && Withdrawn(w, user, groups, listed[name])) ::
      if name in listed && IsDerivedOf(listed[name], user) && LockedOut(w, user, groups)
        then listed[name].(enabled := false)
      else tokens[name]
  }

  datatype Outcome = Ok | NotFound | Fault

  /** A derived token of the user that the lister still shows is gone. */
  ghost predicate DerivedGone(user: User, listed: map<string, Token>, tokens: map<string, Token>) {
    exists name :: name in listed && IsDerivedOf(listed[name], user) && name !in tokens
  }

  /** No token of another user is changed or removed, and none is added. */
  ghost predicate OthersUntouched(user: User, listed: map<string, Token>, before: map<string, Token>,
                                  after: map<string, Token>)
  {
    && after.Keys <= before.Keys
    && (forall name :: name in before && !(name in listed && listed[name].userID == user.name) ==>
        name in after && after[name] == before[name])
  }

  ghost function WithdrawnNames(w: Providers, user: User, groups: Groups, listed: map<string, Token>,
                                done: set<string>): set<string>
  {
    set name | name in listed && IsLogin(listed[name], user) && listed[name].authProvider in done &&
               VerdictOf(w, user, groups, listed[name].authProvider).Refused?
  }

  /** What the loop over the providers has computed so far. */
  datatype Pass = Pass(groups: Groups, tokens: map<string, Token>, canLogInAtAll: bool, errorConfirmingLogins: bool)

  ghost predicate Visited(w: Providers, user: User, groups: Groups, listed: map<string, Token>,
                          start: map<string, Token>, done: set<string>, s: Pass)
  {
    && (forall p :: p in done ==> !VerdictOf(w, user, groups, p).Failure?)
    && s.groups == RefreshedGroups(w, user, groups, done)
    && s.tokens == start - WithdrawnNames(w, user, groups, listed, done)
    && (s.canLogInAtAll <==> exists p :: p in done && VerdictOf(w, user, groups, p).Confirmed?)
    && (s.errorConfirmingLogins <==> exists p :: p in done && VerdictOf(w, user, groups, p).Unknown?)
  }

  function AfterVerdict(s: Pass, provider: string, v: Verdict, gone: set<string>): Pass {
    Pass(if Settles(v) then s.groups[provider := v.groups] else s.groups, s.tokens - gone,
         s.canLogInAtAll || v.Confirmed?, s.errorConfirmingLogins || v.Unknown?)
  }

  lemma FlagsStep(w: Providers, user: User, groups: Groups, done: set<string>, provider: string)
    ensures (exists p :: p in done + {provider} && VerdictOf(w, user, groups, p).Confirmed?) <==>
            (exists p :: p in done && VerdictOf(w, user, groups, p).Confirmed?) ||
              VerdictOf(w, user, groups, provider).Confirmed?
    ensures (exists p :: p in done + {provider} && VerdictOf(w, user, groups, p).Unknown?) <==>
            (exists p :: p in done && VerdictOf(w, user, groups, p).Unknown?) ||
              VerdictOf(w, user, groups, provider).Unknown?
  {
    assert provider in done + {provider};
    assert forall p :: p in done ==> p in done + {provider};
  }

  lemma ReportedStep(w: Providers, user: User, groups: Groups, done: set<string>, provider: string)
    ensures Reported(w, user, groups, done + {provider}) ==
            if Settles(VerdictOf(w, user, groups, provider)) then
              Reported(w, user, groups, done)[provider := VerdictOf(w, user, groups, provider).groups]
            else Reported(w, user, groups, done)
  {
  }

  lemma GroupsStep(w: Providers, user: User, groups: Groups, done: set<string>, provider: string)
    ensures RefreshedGroups(w, user, groups, done + {provider}) ==
            if Settles(VerdictOf(w, user, groups, provider)) then
              RefreshedGroups(w, user, groups, done)[provider := VerdictOf(w, user, groups, provider).groups]
            else RefreshedGroups(w, user, groups, done)
  {
    ReportedStep(w, user, groups, done, provider);
    if Settles(VerdictOf(w, user, groups, provider)) {
      AddOver(groups, Reported(w, user, groups, done), provider, VerdictOf(w, user, groups, provider).groups);
    }
  }

  ghost function LoginNames(user: User, listed: map<string, Token>, provider: string): set<string> {
    set name | name in listed && IsLogin(listed[name], user) && listed[name].authProvider == provider
  }

  lemma WithdrawnStep(w: Providers, user: User, groups: Groups, listed: map<string, Token>, done: set<string>,
                      provider: string, tokens: map<string, Token>)
    ensures tokens - WithdrawnNames(w, user, groups, listed, done + {provider}) ==
            if VerdictOf(w, user, groups, provider).Refused? then
              tokens - WithdrawnNames(w, user, groups, listed, done) - LoginNames(user, listed, provider)
            else tokens - WithdrawnNames(w, user, groups, listed, done)
  {
    assert WithdrawnNames(w, user, groups, listed, done + {provider}) ==
           WithdrawnNames(w, user, groups, listed, done) +
           (if VerdictOf(w, user, groups, provider).Refused? then LoginNames(user, listed, provider) else {});
  }

  lemma VisitStep(w: Providers, user: User, groups: Groups, listed: map<string, Token>, start: map<string, Token>,
                  done: set<string>,
                  provider: string, s: Pass, gone: set<string>)
    requires Visited(w, user, groups, listed, start, done, s)
    requires !VerdictOf(w, user, groups, provider).Failure?
    requires gone == if VerdictOf(w, user, groups, provider).Refused? then LoginNames(user, listed, provider) else {}
    ensures Visited(w, user, groups, listed, start, done + {provider},
                    AfterVerdict(s, provider, VerdictOf(w, user, groups, provider), gone))
  {
    GroupsStep(w, user, groups, done, provider);
    WithdrawnStep(w, user, groups, listed, done, provider, start);
    FlagsStep(w, user, groups, done, provider);
  }

  lemma NoneVisited(w: Providers, user: User, groups: Groups, listed: map<string, Token>, start: map<string, Token>)
    ensures Visited(w, user, groups, listed, start, {}, Pass(groups, start, false, false))
  {
  }

  /** The store with the listed derived tokens among `done` disabled. */
  ghost function Disabled(user: User, listed: map<string, Token>, tokens: map<string, Token>,
                          done: set<string>): map<string, Token>
  {
    map name | name in tokens ::
      if name in done && name in listed && IsDerivedOf(listed[name], user) then listed[name].(enabled := false)
        else tokens[name]
  }

  lemma FinalTokens(w: Providers, user: User, groups: Groups, listed: map<string, Token>, tokens: map<string, Token>)
    ensures var kept := tokens - WithdrawnNames(w, user, groups, listed, w.names);
            && RefreshedTokens(w, user, groups, listed, tokens) ==
               (if LockedOut(w, user, groups) then Disabled(user, listed, kept, listed.Keys) else kept)
            && OthersUntouched(user, listed, tokens, kept)
  {
  }

  lemma AllVisited(w: Providers, user: User, groups: Groups, listed: map<string, Token>, start: map<string, Token>,
                   s: Pass)
    requires Visited(w, user, groups, listed, start, w.names, s)
    ensures s.canLogInAtAll || s.errorConfirmingLogins <==> !LockedOut(w, user, groups)
    ensures OthersUntouched(user, listed, start, s.tokens)
  {
    FinalTokens(w, user, groups, listed, start);
  }

  lemma RemovalSpares(w: Providers, user: User, groups: Groups, listed: map<string, Token>, done: set<string>,
                      provider: string,
                      gone: set<string>, before: map<string, Token>, after: map<string, Token>)
    requires gone <= LoginNames(user, listed, provider)
    requires after == before - WithdrawnNames(w, user, groups, listed, done) - gone
    ensures OthersUntouched(user, listed, before, after)
  {
  }

  lemma DisablingSpares(w: Providers, user: User, groups: Groups, listed: map<string, Token>,
                        before: map<string, Token>, did: set<string>)
    ensures OthersUntouched(user, listed, before,
                            Disabled(user, listed, before - WithdrawnNames(w, user, groups, listed, w.names), did))
  {
  }

  lemma DisabledNone(user: User, listed: map<string, Token>, tokens: map<string, Token>)
    ensures Disabled(user, listed, tokens, {}) == tokens
  {
  }

  lemma DisabledStep(user: User, listed: map<string, Token>, tokens: map<string, Token>, done: set<string>,
                     name: string)
    requires name in listed && name !in done
    ensures var now := Disabled(user, listed, tokens, done);
            Disabled(user, listed, tokens, done + {name}) ==
            if IsDerivedOf(listed[name], user) && name in now then now[name := listed[name].(enabled := false)] else now
  {
  }

  /** The loop that looks for the user's principal. */
  method FindPrincipal(ids: seq<string>, provider: string) returns (id: string)
    ensures id == PrincipalFor(ids, provider)
  {
    id := "";
    for i := 0 to |ids|
      invariant PrincipalFor(ids, provider) == PrincipalFor(ids[i..], provider)
    {
      assert ids[i..][1..] == ids[i + 1..];
      if HasPrefix(ids[i], UserPrefix(provider)) {
        return ids[i];
      }
    }
  }

  class Refresher {
    var tokens: map<string, Token>
    /** Whether a request failed although nothing stood in its way. */
    ghost var faulted: bool

    constructor (tokens: map<string, Token>)
      ensures this.tokens == tokens && !faulted
    {
      this.tokens, faulted := tokens, false;
    }

    method Delete(name: string) returns (r: Outcome)
      modifies this
      ensures faulted <==> old(faulted) || r.Fault?
      ensures if r.Fault? then tokens == old(tokens) else tokens == old(tokens) - {name}
    {
      var fault := *;
      faulted := faulted || fault;
      if fault {
        return Fault;
      } else if name !in tokens {
        return NotFound;
      }
      tokens := tokens - {name};
      return Ok;
    }

    method Update(name: string, t: Token) returns (r: Outcome)
      modifies this
      ensures faulted <==> old(faulted) || r.Fault?
      ensures r.NotFound? ==> name !in old(tokens)
      ensures if r.Ok? then name in old(tokens) && tokens == old(tokens)[name := t] else tokens == old(tokens)
    {
      var fault := *;
      faulted := faulted || fault;
      if fault {
        return Fault;
      } else if name !in tokens {
        return NotFound;
      }
      tokens := tokens[name := t];
      return Ok;
    }

    /** Delete the user's login tokens with one provider. */
    method DeleteLogins(user: User, listed: map<string, Token>, provider: string)
        returns (ok: bool, ghost gone: set<string>)
      modifies this
      ensures gone <= LoginNames(user, listed, provider) && tokens == old(tokens) - gone
      ensures ok ==> gone == LoginNames(user, listed, provider)
      ensures faulted <==> old(faulted) || !ok
    {
      ok := true;
      var rest := set name | name in listed && IsLogin(listed[name], user) && listed[name].authProvider == provider;
      ghost var all := rest;
      assert all == LoginNames(user, listed, provider);
      gone := {};
      while rest != {}
        invariant rest <= all && gone == all - rest
        invariant tokens == old(tokens) - gone && faulted == old(faulted)
        decreases rest
      {
        var name :| name in rest;
        var r := Delete(name);
        if r.Fault? {
          ok := false;
          return;
        }
        rest := rest - {name};
        gone := gone + {name};
      }
    }

    /** One provider of the loop: take over its groups, and withdraw login tokens if it refuses the user. */
    method RefreshProvider(w: Providers, user: User, groups: Groups, listed: map<string, Token>, provider: string)
        returns (ok: bool, verdict: Verdict, ghost gone: set<string>)
      modifies this
      ensures verdict == VerdictOf(w, user, groups, provider)
      ensures ok ==> !verdict.Failure?
      ensures faulted <==> old(faulted) || (!ok && !verdict.Failure?)
      ensures gone <= LoginNames(user, listed, provider) && tokens == old(tokens) - gone
      ensures ok ==> gone == if verdict.Refused? then LoginNames(user, listed, provider) else {}
    {
      gone := {};
      assert tokens == tokens - {};
      var principal := FindPrincipal(user.principalIDs, provider);
      var newGroups: seq<string> := [];
      if principal != "" {
        var secret := "";
        if provider in w.withSecrets {
          if w.secret(provider).None? {
            return false, Failure, gone;
          }
          secret := w.secret(provider).value;
        }
        if provider in w.unrefreshable {
          newGroups := Existing(groups, provider);
        } else {
          match w.refetch(provider, principal, secret) {
            case Unreachable => return true, Unknown, gone;
            case NoAccess(items) =>
              newGroups := items;
              principal := "";
            case Fetched(items) => newGroups := items;
          }
        }
      }
      verdict := Refused(newGroups);
      if principal != "" {
        match w.access(provider, principal, newGroups) {
          case None => return false, Failure, gone;
          case Some(yes) => verdict := if yes then Confirmed(newGroups) else Refused(newGroups);
        }
      }
      ok := true;
      if verdict.Refused? {
        ok, gone := DeleteLogins(user, listed, provider);
      }
    }

    method DisableOne(user: User, listed: map<string, Token>, name: string, ghost start: map<string, Token>,
                      ghost did: set<string>) returns (ok: bool)
      requires name in listed && name !in did && tokens == Disabled(user, listed, start, did)
      modifies this
      ensures tokens == Disabled(user, listed, start, if ok then did + {name} else did)
      ensures old(faulted) ==> faulted
      ensures !ok ==> faulted || DerivedGone(user, listed, start)
    {
      DisabledStep(user, listed, start, did, name);
      if IsDerivedOf(listed[name], user) {
        var r := Update(name, listed[name].(enabled := false));
        return r.Ok?;
      }
      return true;
    }

    /** Disable the user's derived tokens. */
    method DisableDerived(user: User, listed: map<string, Token>) returns (ok: bool, ghost did: set<string>)
      modifies this
      ensures tokens == Disabled(user, listed, old(tokens), did)
      ensures ok ==> did == listed.Keys
      ensures old(faulted) ==> faulted
      ensures !ok ==> faulted || DerivedGone(user, listed, old(tokens))
    {
      ok := true;
      did := {};
      var rest := listed.Keys;
      DisabledNone(user, listed, tokens);
      while rest != {}
        invariant rest <= listed.Keys && did == listed.Keys - rest
        invariant tokens == Disabled(user, listed, old(tokens), did) && (old(faulted) ==> faulted)
        decreases rest
      {
        var name :| name in rest;
        ok := DisableOne(user, listed, name, old(tokens), did);
        if !ok {
          return;
        }
        rest := rest - {name};
        did := did + {name};
      }
    }

    /** The loop over the providers. */
    method VisitProviders(w: Providers, user: User, groups: Groups, listed: map<string, Token>)
        returns (ok: bool, current: Groups, canLogInAtAll: bool, errorConfirmingLogins: bool)
      modifies this
      ensures ok ==> forall p :: p in w.names ==> !VerdictOf(w, user, groups, p).Failure?
      ensures ok ==> current == RefreshedGroups(w, user, groups, w.names)
      ensures ok ==> tokens == old(tokens) - WithdrawnNames(w, user, groups, listed, w.names)
      ensures ok ==> (canLogInAtAll || errorConfirmingLogins <==> !LockedOut(w, user, groups))
      ensures OthersUntouched(user, listed, old(tokens), tokens)
      ensures !ok ==> faulted || exists p :: p in w.names && VerdictOf(w, user, groups, p).Failure?
    {
      ok := true;
      current, canLogInAtAll, errorConfirmingLogins := groups, false, false;
      var rest := w.names;
      ghost var done: set<string> := {};
      NoneVisited(w, user, groups, listed, tokens);
      while rest != {}
        invariant rest <= w.names && done == w.names - rest
        invariant Visited(w, user, groups, listed, old(tokens), done,
                          Pass(current, tokens, canLogInAtAll, errorConfirmingLogins))
        decreases rest
      {
        var provider :| provider in rest;
        ghost var before := Pass(current, tokens, canLogInAtAll, errorConfirmingLogins);
        var one, verdict, gone := RefreshProvider(w, user, groups, listed, provider);
        if !one {
          RemovalSpares(w, user, groups, listed, done, provider, gone, old(tokens), tokens);
          ok := false;
          return;
        }
        VisitStep(w, user, groups, listed, old(tokens), done, provider, before, gone);
        if Settles(verdict) {
          current := current[provider := verdict.groups];
        }
        canLogInAtAll := canLogInAtAll || verdict.Confirmed?;
        errorConfirmingLogins := errorConfirmingLogins || verdict.Unknown?;
        rest := rest - {provider};
        done := done + {provider};
      }
      assert done == w.names;
      AllVisited(w, user, groups, listed, old(tokens), Pass(current, tokens, canLogInAtAll, errorConfirmingLogins));
    }

    /** `refreshAttributes`. On success the groups and tokens are the ones the providers' answers call for, in whatever
        order the providers were visited. In any case no token of another user is touched. */
    method RefreshAttributes(w: Providers, found: Option<User>, groups: Groups, list: Option<map<string, Token>>)
        returns (r: Option<Groups>)
      modifies this
      ensures found.None? || list.None? ==> r.None? && tokens == old(tokens)
      ensures found.Some? && list.Some? && r.Some? ==>
                && (forall provider :: provider in w.names ==> !VerdictOf(w, found.value, groups, provider).Failure?)
                && r.value == RefreshedGroups(w, found.value, groups, w.names)
                && tokens == RefreshedTokens(w, found.value, groups, list.value, old(tokens))
      ensures found.Some? && list.Some? ==> OthersUntouched(found.value, list.value, old(tokens), tokens)
      ensures found.Some? && list.Some? && r.None? ==>
                || faulted || DerivedGone(found.value, list.value, old(tokens))
                || exists p :: p in w.names && VerdictOf(w, found.value, groups, p).Failure?
    {
      faulted := false;
      if found.None? || list.None? {
        return None;
      }
      var user, listed := found.value, list.value;
      var ok, current, canLogInAtAll, errorConfirmingLogins := VisitProviders(w, user, groups, listed);
      if !ok {
        return None;
      }
      FinalTokens(w, user, groups, listed, old(tokens));
      if canLogInAtAll || errorConfirmingLogins {
        return Some(current);
      }
      var disabled, did := DisableDerived(user, listed);
      DisablingSpares(w, user, groups, listed, old(tokens), did);
      return if disabled then Some(current) else None;
    }
  }
}
