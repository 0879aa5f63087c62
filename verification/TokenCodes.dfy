/** Exactly when the stand-in Clover grants: a code once, to its own client and
    challenge, and never again; a refresh token while it is on its merchant's list and
    has not expired. And what a grant, and a revocation, change. */
module TokenCodes {
  import opened Wrappers
  import opened TokenMachine

  // ---- Codes are used once ----

  /** A token request for the code, without a secret: it uses the code up. */
  ghost predicate Asks(request: Request, code: string) {
    request.Token? && !request.secret && request.code == code
  }

  /** The merchant approved: the code is held for it. */
  ghost predicate Approves(request: Request, code: string) {
    request.Authorize? && request.code == code && request.held.merchant in MERCHANTS
  }

  /** The token request at `j` is granted. */
  ghost predicate Granted(run: seq<Request>, j: nat, cap: nat)
    requires j < |run|
  {
    run[j].Token? && !run[j].secret && CodeGood(At(run, j, cap), run[j].code, run[j].clientId, run[j].made)
  }

  /** Request `i` approved the code, and none up to `n` used it or approved it anew. */
  ghost predicate HeldSince(run: seq<Request>, i: nat, n: nat, code: string)
    requires i < n <= |run|
  {
    Approves(run[i], code) && forall k :: i < k < n ==> !Asks(run[k], code) && !Approves(run[k], code)
  }

  lemma StepCodes(s: State, request: Request, cap: nat, code: string)
    ensures var t := Next(s, request, cap);
            && (Approves(request, code) ==> code in t.codes && t.codes[code] == request.held)
            && (Asks(request, code) ==> code !in t.codes)
            && (!Approves(request, code) && !Asks(request, code) ==>
                  (code in t.codes <==> code in s.codes) && (code in t.codes ==> t.codes[code] == s.codes[code]))
  {
    hide Killed, Elems, Removed, MERCHANTS, RevokedOf;
  }

  /** The codes held are those approved and not used since. */
  lemma {:induction false} CodesHeld(run: seq<Request>, n: nat, cap: nat, code: string)
    requires n <= |run|
    ensures var s := At(run, n, cap);
            && (code in s.codes ==> exists i :: 0 <= i < n && HeldSince(run, i, n, code) && run[i].held == s.codes[code])
            && (forall i :: 0 <= i < n && HeldSince(run, i, n, code) ==> code in s.codes && s.codes[code] == run[i].held)
    decreases n
  {
    if n > 0 {
      hide At, Next, Asks, Approves;
      CodesHeld(run, n - 1, cap, code);
      var s, t := At(run, n - 1, cap), At(run, n, cap);
      assert t == Next(s, run[n - 1], cap) by { AtIs(run, n, cap); }
      StepCodes(s, run[n - 1], cap, code);
      forall i | 0 <= i < n
        ensures HeldSince(run, i, n, code) <==>
                (if i == n - 1 then Approves(run[i], code)
                 else HeldSince(run, i, n - 1, code) && !Asks(run[n - 1], code) && !Approves(run[n - 1], code))
      {
      }
      AsksOrApproves(run[n - 1], code);
      hide HeldSince;
    } else {
      FreshEmpty();
    }
  }

  lemma AsksOrApproves(request: Request, code: string)
    ensures !(Asks(request, code) && Approves(request, code))
    ensures Approves(request, code) ==> request.Authorize?
  {
  }

  lemma AtIs(run: seq<Request>, n: nat, cap: nat)
    requires 0 < n <= |run|
    ensures At(run, n, cap) == Next(At(run, n - 1, cap), run[n - 1], cap)
  {
  }

  lemma FreshEmpty()
    ensures Fresh().codes == map[] && Fresh().refresh == map[]
  {
  }

  /** In every run, a token request is granted exactly if it carries no secret, and
      its code was approved for its client and with the challenge that its verifier
      makes, and no request has used the code, or approved it anew, since. */
  lemma GrantedExactly(run: seq<Request>, j: nat, cap: nat)
    requires j < |run| && run[j].Token?
    ensures Granted(run, j, cap) <==>
            && !run[j].secret
            && exists i :: 0 <= i < j && HeldSince(run, i, j, run[j].code)
                 && run[i].held.clientId == run[j].clientId && run[i].held.challenge == run[j].made
  {
    CodesHeld(run, j, cap, run[j].code);
    ListsExist(run, j, cap);
    hide At, HeldSince, MERCHANTS;
  }

  /** A code is used once, whether or not the request that uses it is granted: any
      later one for it is refused, unless it was approved again in between. */
  lemma CodeUsedOnce(run: seq<Request>, i: nat, j: nat, cap: nat)
    requires i < j < |run| && run[j].Token? && Asks(run[i], run[j].code)
    ensures Granted(run, j, cap) ==> exists k :: i < k < j && Approves(run[k], run[j].code)
  {
    GrantedExactly(run, j, cap);
    if Granted(run, j, cap) {
      var k :| 0 <= k < j && HeldSince(run, k, j, run[j].code);
      AsksOrApproves(run[i], run[j].code);
      assert i < k;
    }
    hide At, MERCHANTS;
  }

  // ---- What a grant does ----

  /** New tokens: an access token good for half an hour, a refresh token for a year. */
  lemma GrantGives(s: State, merchant: Merchant, minted: Minted, now: int, cap: nat)
    requires merchant in s.order
    ensures var t := Issued(s, merchant, minted, now, cap);
            && t.codes == s.codes
            && t.access.Keys == s.access.Keys + {minted.access}
            && t.access[minted.access].merchant == merchant && t.access[minted.access].expires == now + 1800
            && (forall k :: k in s.access && k != minted.access ==> t.access[k] == s.access[k])
            && t.refresh.Keys == s.refresh.Keys + {minted.refresh}
            && t.refresh[minted.refresh].merchant == merchant && t.refresh[minted.refresh].expires == now + 31_536_000
  {
    hide Elems;
  }

  /** The merchant's list becomes its newest tokens, as many as the cap allows, and no
      other list changes. */
  lemma GrantKeepsNewest(s: State, merchant: Merchant, minted: Minted, now: int, cap: nat)
    requires merchant in s.order
    ensures var t := Issued(s, merchant, minted, now, cap);
            var all := s.order[merchant] + [minted.refresh];
            && t.order == s.order[merchant := t.order[merchant]]
            && |t.order[merchant]| == (if |all| < cap then |all| else cap)
            && t.order[merchant] == all[|all| - |t.order[merchant]|..]
  {
    hide Elems, Killed;
  }

  /** The tokens that leave the list die; those that stay are as they were, the new one
      live; and no other token changes. */
  lemma GrantKillsOldest(s: State, merchant: Merchant, minted: Minted, now: int, cap: nat, k: Secret)
    requires merchant in s.order && Distinct(s.order[merchant] + [minted.refresh])
    ensures var t := Issued(s, merchant, minted, now, cap);
            var all := s.order[merchant] + [minted.refresh];
            k in t.refresh ==>
              if k in Elems(all) && k !in Elems(t.order[merchant]) then !t.refresh[k].live
              else if k == minted.refresh then t.refresh[k].live
              else t.refresh[k] == s.refresh[k]
  {
    var all := s.order[merchant] + [minted.refresh];
    var excess := if |all| > cap then |all| - cap else 0;
    GrantKills(s, merchant, minted, now, cap, k);
    hide Issued, Distinct;
    ElemsSplit(all, excess);
    Apart(all, excess);
    assert minted.refresh in Elems(all) by { assert all[|all| - 1] == minted.refresh; }
    hide Elems;
  }

  lemma GrantKills(s: State, merchant: Merchant, minted: Minted, now: int, cap: nat, k: Secret)
    requires merchant in s.order
    ensures var t := Issued(s, merchant, minted, now, cap);
            var all := s.order[merchant] + [minted.refresh];
            var excess := if |all| > cap then |all| - cap else 0;
            && merchant in t.order && t.order[merchant] == all[excess..]
            && (k in t.refresh ==>
                  if k in Elems(all[..excess]) then !t.refresh[k].live
                  else if k == minted.refresh then t.refresh[k].live
                  else k in s.refresh && t.refresh[k] == s.refresh[k])
  {
    hide Elems;
  }

  lemma Apart(tokens: seq<Secret>, n: nat)
    requires Distinct(tokens) && n <= |tokens|
    ensures Elems(tokens[..n]) !! Elems(tokens[n..])
  {
    forall i, j | 0 <= i < n && 0 <= j < |tokens| - n ensures tokens[..n][i] != tokens[n..][j] {
      assert tokens[n..][j] == tokens[n + j];
    }
  }

  /** A revocation: every token of the merchant expires, none of its refresh tokens is
      live or listed, and every other merchant's are as they were. */
  lemma RevokeDoes(s: State, merchant: Merchant, cap: nat)
    requires merchant == Merchant("MCLOVERDEV001") || merchant == Merchant("MCLOVERDEV002")
    ensures var t := Next(s, Revoke(merchant), cap);
            && t.codes == s.codes && t.order == s.order[merchant := []]
            && t.access.Keys == s.access.Keys && t.refresh.Keys == s.refresh.Keys
            && (forall k :: k in t.access ==>
                  if s.access[k].merchant == merchant then t.access[k].expires == 0 else t.access[k] == s.access[k])
            && (forall k :: k in t.refresh ==>
                  if s.refresh[k].merchant == merchant then t.refresh[k].expires == 0 && !t.refresh[k].live
                  else t.refresh[k] == s.refresh[k])
  {
  }

  /** Expiring the access tokens leaves none good at that time, and the rest as it was. */
  lemma ExpireDoes(s: State, now: int, cap: nat)
    ensures var t := Next(s, ExpireTokens(now), cap);
            && t == s.(access := t.access) && t.access.Keys == s.access.Keys
            && forall k :: k in t.access ==> t.access[k].expires < now && t.access[k].merchant == s.access[k].merchant
  {
  }

  // ---- Refresh tokens ----

  ghost function Time(request: Request): int {
    match request
    case Token(_, _, _, _, now, _) => now
    case Refresh(_, _, now, _) => now
    case _ => 0
  }

  /** Request `i` gave the merchant this refresh token. */
  ghost predicate Gives(run: seq<Request>, i: nat, cap: nat, token: Secret, merchant: Merchant)
    requires i < |run|
  {
    || (Granted(run, i, cap) && run[i].minted.refresh == token && At(run, i, cap).codes[run[i].code].merchant == merchant)
    || (run[i].Refresh? && Exchanges(run, i, cap, run[i].token) && run[i].minted.refresh == token
        && At(run, i, cap).refresh[run[i].token].merchant == merchant)
  }

  lemma IssuedLive(s: State, merchant: Merchant, minted: Minted, now: int, cap: nat, token: Secret)
    requires merchant in s.order
    ensures var t := Issued(s, merchant, minted, now, cap);
            && t.refresh.Keys == s.refresh.Keys + {minted.refresh}
            && t.refresh[minted.refresh].merchant == merchant && t.refresh[minted.refresh].expires == now + 31_536_000
            && (token in t.refresh && t.refresh[token].live && token != minted.refresh ==> t.refresh[token] == s.refresh[token])
  {
    hide Elems;
  }

  /** After a step, a live token is as it was, or has just been given. */
  lemma StepLive(run: seq<Request>, n: nat, cap: nat, token: Secret)
    requires n < |run|
    ensures var s, t := At(run, n, cap), At(run, n + 1, cap);
            && s.refresh.Keys <= t.refresh.Keys
            && (token in t.refresh && t.refresh[token].live && (token !in s.refresh || t.refresh[token] != s.refresh[token]) ==>
                  Gives(run, n, cap, token, t.refresh[token].merchant) && t.refresh[token].expires == Time(run[n]) + 31_536_000)
  {
    var s := At(run, n, cap);
    AtIs(run, n + 1, cap);
    hide At, Issued, Elems, Removed, MERCHANTS;
    match run[n]
    case Token(_, code, clientId, made, now, minted) =>
      if Granted(run, n, cap) {
        IssuedLive(WithoutCode(s, code), s.codes[code].merchant, minted, now, cap, token);
      }
    case Refresh(used, clientId, now, minted) =>
      if RefreshGood(s, used, clientId, now) {
        IssuedLive(Spent(s, used), s.refresh[used].merchant, minted, now, cap, token);
      }
    case _ =>
  }

  lemma {:induction false} LiveSince(run: seq<Request>, n: nat, cap: nat, token: Secret)
    requires n <= |run|
    ensures var s := At(run, n, cap);
            token in s.refresh && s.refresh[token].live ==>
              exists i :: 0 <= i < n && Gives(run, i, cap, token, s.refresh[token].merchant)
                && s.refresh[token].expires == Time(run[i]) + 31_536_000
    decreases n
  {
    if n > 0 {
      hide At, Gives;
      LiveSince(run, n - 1, cap, token);
      StepLive(run, n - 1, cap, token);
    } else {
      FreshEmpty();
    }
  }

  /** A token given is known ever after. */
  lemma {:induction false} GivenStays(run: seq<Request>, i: nat, n: nat, cap: nat, token: Secret, merchant: Merchant)
    requires i < n <= |run| && Gives(run, i, cap, token, merchant)
    ensures token in At(run, n, cap).refresh
    decreases n
  {
    hide At, Issued, Elems, Removed, MERCHANTS;
    if n == i + 1 {
      AtIs(run, n, cap);
      var s := At(run, i, cap);
      match run[i]
      case Token(_, code, _, _, now, minted) =>
        IssuedLive(WithoutCode(s, code), s.codes[code].merchant, minted, now, cap, token);
      case Refresh(used, _, now, minted) =>
        IssuedLive(Spent(s, used), s.refresh[used].merchant, minted, now, cap, token);
      case _ =>
    } else {
      GivenStays(run, i, n - 1, cap, token, merchant);
      StepLive(run, n - 1, cap, token);
    }
  }

  lemma GivenOnce(run: seq<Request>, i: nat, j: nat, cap: nat, token: Secret, m: Merchant, n: Merchant)
    requires AllUnseen(run, cap) && i < |run| && j < |run|
    requires Gives(run, i, cap, token, m) && Gives(run, j, cap, token, n)
    ensures i == j
  {
    if i < j {
      GivenStays(run, i, j, cap, token, m);
      UnseenAt(run, j, cap);
    } else if j < i {
      GivenStays(run, j, i, cap, token, n);
      UnseenAt(run, i, cap);
    }
    hide At, AllUnseen;
  }

  /** In every run, a refresh request is granted exactly if it names its client, and its
      token was given to some merchant less than a year ago and is on that merchant's
      list: so was not exchanged, revoked or pushed out by newer ones. */
  lemma ExchangedExactly(run: seq<Request>, j: nat, cap: nat)
    requires AllUnseen(run, cap) && j < |run| && run[j].Refresh?
    ensures Exchanges(run, j, cap, run[j].token) <==>
            && run[j].clientId != ""
            && exists i, m :: 0 <= i < j && Gives(run, i, cap, run[j].token, m)
                 && run[j].now < Time(run[i]) + 31_536_000
                 && m in At(run, j, cap).order && run[j].token in Elems(At(run, j, cap).order[m])
  {
    var s, token := At(run, j, cap), run[j].token;
    RunKeeps(run, j, cap);
    LiveSince(run, j, cap, token);
    ListsExist(run, j, cap);
    hide At, Gives, AllUnseen, MERCHANTS, Elems, Aged, Numbered;
    if Exchanges(run, j, cap, token) {
      var i :| 0 <= i < j && Gives(run, i, cap, token, s.refresh[token].merchant) && s.refresh[token].expires == Time(run[i]) + 31_536_000;
      assert Listed(s.refresh, s.age, s.order[s.refresh[token].merchant], s.refresh[token].merchant, cap);
    }
    if i, m :| 0 <= i < j && Gives(run, i, cap, token, m) && m in s.order && token in Elems(s.order[m])
               && run[j].now < Time(run[i]) + 31_536_000 {
      assert Listed(s.refresh, s.age, s.order[m], m, cap);
      var k :| 0 <= k < j && Gives(run, k, cap, token, s.refresh[token].merchant) && s.refresh[token].expires == Time(run[k]) + 31_536_000;
      GivenOnce(run, i, k, cap, token, m, s.refresh[token].merchant);
    }
  }
}
