/** Looking API tokens up and keeping them: pkg/auth/tokens/manager.go, token_util.go and purge_daemon.go, and
    TokenFromRequest of pkg/auth/requests/authenticate.go. */
module Tokens {
  import opened Basics
  import opened GoInt
  import opened Maps
  import opened Sets
  import opened Text

  const USER_ID_LABEL: string := "authn.management.cattle.io/token-userId"

  /** Times are in nanoseconds. */
  datatype Token = Token(
    name: string,
    key: string,
    labels: map<string, string>,
    userID: string,
    authProvider: string,
    isDerived: bool,
    ttlMillis: int,
    created: int,
    expired: bool)

  type Store = map<string, Token>

  /** The last stretch of a token auth value is its key; a value that is not two parts has no key. */
  function SplitTokenParts(value: string): (string, string) {
    var parts := Split(value, ":");
    if |parts| != 2 then (parts[0], "") else (parts[0], parts[1])
  }

  // ---------- Expiry ----------

  /** `time.Since`, which stays within 64 bits. */
  function Since(created: int, now: int): int {
    if now - created >= TWO_POW_63 then TWO_POW_63 - 1
    else if now - created < -TWO_POW_63 then -TWO_POW_63
    else now - created
  }

  predicate IsExpired(t: Token, now: int) {
    t.ttlMillis != 0 && Since(t.created, now) >= Wrap64(t.ttlMillis * 1_000_000)
  }

  /** The token has lived for at least its time to live. */
  predicate Outlived(t: Token, now: int) {
    t.ttlMillis != 0 && now - t.created >= t.ttlMillis * 1_000_000
  }

  /** A token is treated as expired exactly when it has outlived its time to live, at every moment a 64-bit duration can
      tell, if and only if the time to live in nanoseconds fits 64 bits, or is negative and wraps around to the least
      duration. */
  lemma ExpiryExact(t: Token)
    ensures (forall now :: Fits64(now - t.created) ==> (IsExpired(t, now) <==> Outlived(t, now))) <==>
            Fits64(t.ttlMillis * 1_000_000) || (t.ttlMillis < 0 && Wrap64(t.ttlMillis * 1_000_000) == -TWO_POW_63)
  {
    var ttl := t.ttlMillis * 1_000_000;
    WrapExact(ttl);
    // A token that should live for centuries counts as expired at the last moment a duration can tell, and one that
    // should have died centuries ago counts as alive at the first.
    var late, early := t.created + TWO_POW_63 - 1, t.created - TWO_POW_63;
    assert Fits64(late - t.created) && Fits64(early - t.created);
    if !Fits64(ttl) && ttl > 0 {
      assert IsExpired(t, late) && !Outlived(t, late);
    } else if !Fits64(ttl) && Wrap64(ttl) != -TWO_POW_63 {
      assert !IsExpired(t, early) && Outlived(t, early);
    }
  }

  /** For example, a time to live of about 292 years wraps around, and the token is expired from the start. */
  lemma LongLivedTokenExpiresAtOnce(t: Token)
    requires t.ttlMillis == 9_223_372_036_855
    ensures IsExpired(t, t.created) && !Outlived(t, t.created)
  {
    assert Wrap64(9_223_372_036_855_000_000) < 0;
  }

  // ---------- Lookup ----------

  /** The value names the token and gives its key. */
  ghost predicate Presents(value: string, t: Token) {
    Split(value, ":") == [t.name, t.key]
  }

  /** For tokens without a colon in name or key, that is the text `name:key`. */
  lemma PresentsText(value: string, t: Token)
    requires ':' !in t.name && ':' !in t.key
    ensures Presents(value, t) <==> value == t.name + ":" + t.key
  {
    SplitInTwo(value, ':', t.name, t.key);
  }

  /** Tokens are stored under their names, no two have the same key, and no key is empty. */
  ghost predicate WellKept(store: Store) {
    && (forall n :: n in store ==> store[n].name == n && store[n].key != "")
    && (forall m, n :: m in store && n in store && store[m].key == store[n].key ==> m == n)
  }

  /** The index knows only tokens that are stored, as they are stored. */
  ghost predicate Indexed(index: seq<Token>, store: Store) {
    forall i :: 0 <= i < |index| ==> index[i].name in store && store[index[i].name] == index[i]
  }

  /** How a lookup ends, with the status the manager reports: 404, 410 or none. */
  datatype Lookup = Found(token: Token) | Expired(token: Token) | Missing | Invalid | Unavailable

  /** What the index answers for a key: objects, not found, or another error. */
  datatype IndexAnswer = Objects(tokens: seq<Token>) | IndexNotFound | IndexError

  /** The informer index by key lists the tokens with that key, in any order. */
  ghost predicate AnswersKey(answer: IndexAnswer, index: seq<Token>, key: string) {
    match answer
    case Objects(ts) => (forall t :: t in ts ==> t in index && t.key == key) &&
      (ts == [] ==> forall t :: t in index ==> t.key != key)
    case IndexNotFound => forall t :: t in index ==> t.key != key
    case IndexError => true
  }

  /** What the lookups rely on: the store can be asked, it is well kept, and the index answered from tokens that are
      stored. */
  ghost predicate Reliable(store: Store, apiUp: bool, answer: IndexAnswer, key: string) {
    && apiUp && WellKept(store) && !answer.IndexError?
    && exists index :: AnswersKey(answer, index, key) && Indexed(index, store)
  }

  /** The token is stored and presented. */
  ghost predicate StoredAs(store: Store, value: string, t: Token) {
    t.name in store && store[t.name] == t && Presents(value, t)
  }

  /** The shared part of both lookups: index first, store as fallback, then the checks. `apiUp` says whether the store
      can be asked; the manager reports any failure to ask it as a missing token. */
  method Retrieve(store: Store, apiUp: bool, answer: IndexAnswer, name: string, key: string, now: int)
      returns (r: Lookup)
    ensures answer.IndexError? ==> r.Unavailable?
    ensures Reliable(store, apiUp, answer, key) ==>
              match r
              case Found(t) => name in store && t == store[name] && t.key == key && !IsExpired(t, now)
              case Expired(t) => name in store && t == store[name] && t.key == key && IsExpired(t, now)
              case Missing => name !in store
              case Invalid => name !in store || store[name].key != key
              case Unavailable => false
  {
    var stored: Token;
    match answer {
      case IndexError => return Unavailable;
      case Objects(ts) =>
        if ts != [] {
          stored := ts[0];
        } else if !apiUp || name !in store {
          return Missing;
        } else {
          stored := store[name];
        }
      case IndexNotFound =>
        if !apiUp || name !in store {
          return Missing;
        }
        stored := store[name];
    }
    if stored.key != key || stored.name != name {
      return Invalid;
    }
    return if IsExpired(stored, now) then Expired(stored) else Found(stored);
  }

  lemma PresentsParts(value: string)
    ensures forall t: Token :: t.key != "" ==> (Presents(value, t) <==> SplitTokenParts(value) == (t.name, t.key))
  {
  }

  /** `getToken`. */
  method GetToken(store: Store, apiUp: bool, answer: IndexAnswer, value: string, now: int) returns (r: Lookup)
    ensures answer.IndexError? ==> r.Unavailable?
    ensures Reliable(store, apiUp, answer, SplitTokenParts(value).1) ==>
              && (forall t :: r == Found(t) <==> StoredAs(store, value, t) && !IsExpired(t, now))
              && (forall t :: r == Expired(t) <==> StoredAs(store, value, t) && IsExpired(t, now))
              && !r.Unavailable?
  {
    var (name, key) := SplitTokenParts(value);
    r := Retrieve(store, apiUp, answer, name, key, now);
    PresentsParts(value);
  }

  /** `TokenFromRequest`, once the value has been taken from the request: every failure reads "must authenticate". */
  method TokenFromRequest(store: Store, apiUp: bool, answer: IndexAnswer, value: string, now: int)
      returns (r: Option<Token>)
    ensures answer.IndexError? ==> r.None?
    ensures Reliable(store, apiUp, answer, SplitTokenParts(value).1) ==>
              forall t :: r == Some(t) <==> StoredAs(store, value, t) && t.name != "" && !IsExpired(t, now)
  {
    if value == "" {
      assert Split(value, ":") == [""];
      return None;
    }
    var (name, key) := SplitTokenParts(value);
    PresentsParts(value);
    if name == "" || key == "" {
      return None;
    }
    var found := Retrieve(store, apiUp, answer, name, key, now);
    return if found.Found? then Some(found.token) else None;
  }

  // ---------- Keeping tokens ----------

  /** Every token carries its user's ID as a label, which is what listing a user's tokens goes by. */
  ghost predicate Labelled(store: Store) {
    forall n :: n in store ==>
        store[n].name == n && USER_ID_LABEL in store[n].labels && store[n].labels[USER_ID_LABEL] == store[n].userID
  }

  /** The names a purge deletes. */
  function Purged(listed: seq<Token>, now: int, outage: string -> bool): set<string> {
    set t | t in listed && IsExpired(t, now) && !outage(t.name) :: t.name
  }

  lemma PurgedStep(listed: seq<Token>, i: nat, now: int, outage: string -> bool)
    requires i < |listed|
    ensures Purged(listed[..i + 1], now, outage) ==
            Purged(listed[..i], now, outage) +
              (if IsExpired(listed[i], now) && !outage(listed[i].name) then {listed[i].name} else {})
  {
    assert listed[..i + 1] == listed[..i] + [listed[i]];
  }

  /** A token as it is listed: marked if it has expired. */
  function Marked(t: Token, now: int): Token {
    if IsExpired(t, now) then t.(expired := true) else t
  }

  /** The list has the tokens with these names, each once. */
  ghost predicate Lists(store: Store, names: set<string>, list: seq<Token>, now: int) {
    && (forall i :: 0 <= i < |list| ==> exists n :: n in names && n in store && list[i] == Marked(store[n], now))
    && (forall n :: n in names ==> n in store && Marked(store[n], now) in list)
    && |list| == |names|
  }

  ghost function LabelledFor(store: Store, userID: string): set<string> {
    set n | n in store && USER_ID_LABEL in store[n].labels && store[n].labels[USER_ID_LABEL] == userID
  }

  ghost function OwnedBy(store: Store, userID: string): set<string> {
    set n | n in store && store[n].userID == userID
  }

  /** The list is all of the user's tokens. */
  ghost predicate TokensOf(store: Store, userID: string, list: seq<Token>, now: int) {
    Lists(store, OwnedBy(store, userID), list, now)
  }

  lemma ByLabelIsByUser(store: Store, userID: string, list: seq<Token>, now: int)
    requires Labelled(store)
    requires Lists(store, LabelledFor(store, userID), list, now)
    ensures TokensOf(store, userID, list, now)
  {
    assert LabelledFor(store, userID) == OwnedBy(store, userID);
  }

  ghost function PresentedNames(store: Store, value: string): set<string> {
    set n | n in store && Presents(value, store[n])
  }

  lemma OnePresented(store: Store, value: string, t: Token)
    requires WellKept(store) && StoredAs(store, value, t)
    ensures PresentedNames(store, value) == {t.name}
  {
  }

  lemma NonePresented(store: Store, value: string)
    requires WellKept(store) && forall t :: !StoredAs(store, value, t)
    ensures PresentedNames(store, value) == {}
  {
    forall n | n in store ensures !Presents(value, store[n]) {
      assert !StoredAs(store, value, store[n]);
    }
  }

  lemma ListsStep(store: Store, names: set<string>, list: seq<Token>, now: int, n: string)
    requires Lists(store, names, list, now) && n in store && n !in names
    ensures Lists(store, names + {n}, list + [Marked(store[n], now)], now)
  {
    var more := list + [Marked(store[n], now)];
    forall i | 0 <= i < |more| ensures exists m :: m in names + {n} && m in store && more[i] == Marked(store[m], now) {
      if i < |list| {
        var m :| m in names && m in store && list[i] == Marked(store[m], now);
        assert m in names + {n};
      } else {
        assert n in names + {n};
      }
    }
  }

  class Manager {
    var store: Store

    ghost predicate Valid()
      reads this
    {
      Labelled(store)
    }

    constructor ()
      ensures Valid() && store == map[]
    {
      store := map[];
    }

    /** `createToken`: the key is random and the API server picks the name. `created` says whether the key could be made
        and the API server took the token. */
    method CreateToken(t: Token, key: string, name: string, now: int, created: bool) returns (r: Option<Token>)
      requires Valid()
      modifies this
      ensures Valid()
      ensures r.Some? <==> created && name !in old(store)
      ensures r.None? ==> store == old(store)
      ensures r.Some? ==> store == old(store)[name := r.value] &&
                          r.value == t.(name := name, key := key, labels := map[USER_ID_LABEL := t.userID], created :=
                                        now)
    {
      var made := t.(name := name, key := key, labels := map[USER_ID_LABEL := t.userID], created := now);
      if !created || name in store {
        return None;
      }
      store := store[name := made];
      return Some(made);
    }

    /** `createDerivedToken`: a token for the user of a token that is presented and valid. */
    method CreateDerivedToken(value: string, apiUp: bool, answer: IndexAnswer, ttlMillis: int, key: string,
                              name: string, now: int, created: bool)
        returns (r: Option<Token>)
      requires Valid()
      modifies this
      ensures Valid()
      ensures r.None? ==> store == old(store)
      ensures r.Some? ==>
                name !in old(store) && store == old(store)[name := r.value] && r.value.isDerived &&
                r.value.key == key && r.value.ttlMillis == ttlMillis
      ensures Reliable(old(store), apiUp, answer, SplitTokenParts(value).1) ==>
                && (r.Some? <==> created && name !in old(store) && exists t ::
                    StoredAs(old(store), value, t) && !IsExpired(t, now))
                && (r.Some? ==> forall t :: StoredAs(old(store), value, t) ==>
                    r.value.userID == t.userID && r.value.authProvider == t.authProvider)
    {
      var parent := GetToken(store, apiUp, answer, value, now);
      if !parent.Found? {
        return None;
      }
      var t := parent.token;
      r := CreateToken(Token("", "", map[], t.userID, t.authProvider, true, ttlMillis, 0, false), key, name, now,
                       created);
    }

    /** `deleteTokenByName`: a token that is gone already is no error. */
    method DeleteTokenByName(name: string, outage: bool) returns (ok: bool)
      requires Valid()
      modifies this
      ensures Valid()
      ensures ok <==> !outage
      ensures store == if ok then old(store) - {name} else old(store)
    {
      if outage {
        return false;
      }
      store := store - {name};
      return true;
    }

    /** `deleteToken`: the presented token goes, expired or not; a missing one is no error. */
    method DeleteToken(value: string, apiUp: bool, answer: IndexAnswer, now: int, outage: bool) returns (ok: bool)
      requires Valid()
      modifies this
      ensures Valid()
      ensures !ok ==> store == old(store)
      ensures !outage && Reliable(old(store), apiUp, answer, SplitTokenParts(value).1) &&
              PresentedNames(old(store), value) != {} ==>
                ok
      ensures ok && Reliable(old(store), apiUp, answer, SplitTokenParts(value).1) ==>
                store == old(store) - PresentedNames(old(store), value)
    {
      var found := GetToken(store, apiUp, answer, value, now);
      match found {
        case Missing =>
          if Reliable(store, apiUp, answer, SplitTokenParts(value).1) {
            NonePresented(store, value);
          }
          return true;
        case Invalid =>
          if Reliable(store, apiUp, answer, SplitTokenParts(value).1) {
            NonePresented(store, value);
          }
          return false;
        case Unavailable => return false;
        case Found(t) =>
          if Reliable(store, apiUp, answer, SplitTokenParts(value).1) {
            OnePresented(store, value, t);
          }
          ok := DeleteTokenByName(t.name, outage);
        case Expired(t) =>
          if Reliable(store, apiUp, answer, SplitTokenParts(value).1) {
            OnePresented(store, value, t);
          }
          ok := DeleteTokenByName(t.name, outage);
      }
    }

    /** The purge daemon: the tokens the lister shows as expired are deleted, save where the deletion fails. */
    method Purge(listed: seq<Token>, now: int, outage: string -> bool)
      requires Valid()
      modifies this
      ensures Valid()
      ensures store == old(store) - Purged(listed, now, outage)
    {
      for i := 0 to |listed|
        invariant Valid()
        invariant store == old(store) - Purged(listed[..i], now, outage)
      {
        PurgedStep(listed, i, now, outage);
        if IsExpired(listed[i], now) {
          RemoveTwice(old(store), Purged(listed[..i], now, outage), {listed[i].name});
          var _ := DeleteTokenByName(listed[i].name, outage(listed[i].name));
        }
      }
      assert listed[..|listed|] == listed;
    }

    method ListByLabel(userID: string, now: int) returns (list: seq<Token>)
      ensures Lists(store, LabelledFor(store, userID), list, now)
    {
      list := [];
      ghost var wanted := LabelledFor(store, userID);
      var rest := store.Keys;
      ghost var names: set<string> := {};
      while rest != {}
        invariant rest <= store.Keys
        invariant names == wanted - rest
        invariant Lists(store, names, list, now)
        decreases rest
      {
        var n :| n in rest;
        CoverOne(wanted, rest, n);
        if USER_ID_LABEL in store[n].labels && store[n].labels[USER_ID_LABEL] == userID {
          ListsStep(store, names, list, now, n);
          list := list + [Marked(store[n], now)];
          names := names + {n};
        }
        rest := rest - {n};
      }
    }

    /** `getTokens`: all tokens of the presented token's user, with the expired ones marked. */
    method GetTokens(value: string, apiUp: bool, answer: IndexAnswer, now: int, listed: bool)
        returns (r: Option<seq<Token>>)
      requires Valid()
      ensures Reliable(store, apiUp, answer, SplitTokenParts(value).1) ==>
                && (r.Some? <==> listed && exists t :: StoredAs(store, value, t) && !IsExpired(t, now))
                && (r.Some? ==> forall t :: StoredAs(store, value, t) ==> TokensOf(store, t.userID, r.value, now))
    {
      var found := GetToken(store, apiUp, answer, value, now);
      if !found.Found? || !listed {
        return None;
      }
      var list := ListByLabel(found.token.userID, now);
      ByLabelIsByUser(store, found.token.userID, list, now);
      return Some(list);
    }
  }
}
