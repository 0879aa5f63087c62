/** The stand-in Clover's OAuth tokens: codes used once, refresh tokens spent as
    they are used, and at most a cap of them alive for a merchant, the oldest
    dying first. */
module TokenMachine {
  import opened Wrappers

  const ACCESS_TTL := 1800
  const REFRESH_TTL := 365 * 86400

  datatype Merchant = Merchant(id: string)

  /** An access or refresh token. */
  datatype Secret = Secret(text: string)

  const MERCHANTS: set<Merchant> := {Merchant("MCLOVERDEV001"), Merchant("MCLOVERDEV002")}

  datatype CodeHeld = CodeHeld(challenge: string, clientId: string, merchant: Merchant)

  /** An access token, or a refresh token; only a refresh token's `live` is read. */
  datatype Held = Held(merchant: Merchant, expires: int, live: bool)

  /** `order` is the live refresh tokens of each merchant, oldest first. `age`
      numbers the refresh tokens as they were issued, and `spent` lists those
      exchanged, for the account only. */
  datatype State = State(codes: map<string, CodeHeld>, access: map<Secret, Held>, refresh: map<Secret, Held>,
                         order: map<Merchant, seq<Secret>>, age: map<Secret, nat>, spent: seq<Secret>)

  /** New tokens, random and never seen before. */
  datatype Minted = Minted(access: Secret, refresh: Secret)

  /** One request, with the time it comes and the tokens that would be minted.
      `made` is the challenge the verifier sent makes. */
  datatype Request =
    | Authorize(code: string, held: CodeHeld)
    | Token(secret: bool, code: string, clientId: string, made: string, now: int, minted: Minted)
    | Refresh(token: Secret, clientId: string, now: int, minted: Minted)
    | ExpireTokens(now: int)
    | Revoke(merchant: Merchant)

  function Elems(tokens: seq<Secret>): set<Secret> {
    set i | 0 <= i < |tokens| :: tokens[i]
  }

  /** The tokens with those of `dead` no longer live. */
  function Killed(refresh: map<Secret, Held>, dead: set<Secret>): map<Secret, Held> {
    map t | t in refresh :: if t in dead then refresh[t].(live := false) else refresh[t]
  }

  /** The list without the first occurrence of `token`. */
  function Removed(tokens: seq<Secret>, token: Secret): seq<Secret> {
    if tokens == [] then []
    else if tokens[0] == token then tokens[1..]
    else [tokens[0]] + Removed(tokens[1..], token)
  }

  function Issued(s: State, merchant: Merchant, minted: Minted, now: int, cap: nat): State
    requires merchant in s.order
  {
    var order := s.order[merchant] + [minted.refresh];
    var excess := if |order| > cap then |order| - cap else 0;
    var refresh := s.refresh[minted.refresh := Held(merchant, now + REFRESH_TTL, true)];
    s.(access := s.access[minted.access := Held(merchant, now + ACCESS_TTL, true)],
       refresh := Killed(refresh, Elems(order[..excess])),
       order := s.order[merchant := order[excess..]],
       age := s.age[minted.refresh := |s.age|])
  }

  predicate CodeGood(s: State, code: string, clientId: string, made: string) {
    code in s.codes && s.codes[code].clientId == clientId && s.codes[code].challenge == made
    && s.codes[code].merchant in s.order
  }

  function WithoutCode(s: State, code: string): State {
    s.(codes := map c | c in s.codes && c != code :: s.codes[c])
  }

  predicate RefreshGood(s: State, token: Secret, clientId: string, now: int) {
    token in s.refresh && s.refresh[token].live && s.refresh[token].expires > now && clientId != ""
    && s.refresh[token].merchant in s.order
  }

  function Spent(s: State, token: Secret): State
    requires token in s.refresh && s.refresh[token].merchant in s.order
  {
    var merchant := s.refresh[token].merchant;
    s.(refresh := s.refresh[token := s.refresh[token].(live := false)],
       order := s.order[merchant := Removed(s.order[merchant], token)],
       spent := s.spent + [token])
  }

  function Next(s: State, request: Request, cap: nat): State {
    match request
    case Authorize(code, held) => if held.merchant in MERCHANTS then s.(codes := s.codes[code := held]) else s
    case Token(secret, code, clientId, made, now, minted) =>
      if secret then s
      else if CodeGood(s, code, clientId, made) then
        Issued(WithoutCode(s, code), s.codes[code].merchant, minted, now, cap)
      else WithoutCode(s, code)
    case Refresh(token, clientId, now, minted) =>
      if RefreshGood(s, token, clientId, now) then
        Issued(Spent(s, token), s.refresh[token].merchant, minted, now, cap)
      else s
    case ExpireTokens(now) => s.(access := map t | t in s.access :: s.access[t].(expires := now - 1))
    case Revoke(merchant) => if merchant in MERCHANTS then Revoked(s, merchant) else s
  }

  function Revoked(s: State, merchant: Merchant): State {
    s.(access := RevokedOf(s.access, merchant), refresh := RevokedOf(s.refresh, merchant),
       order := s.order[merchant := []])
  }

  function RevokedOf(tokens: map<Secret, Held>, merchant: Merchant): map<Secret, Held> {
    map t | t in tokens ::
      if tokens[t].merchant == merchant then tokens[t].(expires := 0, live := false) else tokens[t]
  }

  function Fresh(): State {
    State(map[], map[], map[], map m | m in MERCHANTS :: [], map[], [])
  }

  // ---- The server's own code ----

  class Clover {
    const cap: nat
    var codes: map<string, CodeHeld>
    var access: map<Secret, Held>
    var refresh: map<Secret, Held>
    var order: map<Merchant, seq<Secret>>
    ghost var age: map<Secret, nat>
    ghost var spent: seq<Secret>

    ghost function View(): State
      reads this
    {
      State(codes, access, refresh, order, age, spent)
    }

    constructor (cap: nat)
      ensures this.cap == cap && View() == Fresh()
    {
      this.cap := cap;
      codes, access, refresh := map[], map[], map[];
      order := map m | m in MERCHANTS :: [];
      age, spent := map[], [];
    }

    method IssueTokens(merchant: Merchant, minted: Minted, now: int)
      requires merchant in order
      modifies this
      ensures View() == Issued(old(View()), merchant, minted, now, cap)
    {
      age := age[minted.refresh := |age|];
      access := access[minted.access := Held(merchant, now + ACCESS_TTL, true)];
      refresh := refresh[minted.refresh := Held(merchant, now + REFRESH_TTL, true)];
      ghost var issued := refresh;
      var live := order[merchant] + [minted.refresh];
      ghost var all := live;
      ghost var popped := 0;
      KilledNone(issued);
      while |live| > cap
        invariant popped <= |all| && live == all[popped..]
        invariant popped == 0 || |live| >= cap
        invariant refresh == Killed(issued, Elems(all[..popped]))
        invariant codes == old(codes) && order == old(order) && spent == old(spent)
        invariant access == old(access)[minted.access := Held(merchant, now + ACCESS_TTL, true)]
        invariant age == old(age)[minted.refresh := |old(age)|]
      {
        var oldest := live[0];
        live := live[1..];
        if oldest in refresh {
          refresh := refresh[oldest := refresh[oldest].(live := false)];
        }
        KilledMore(issued, all, popped);
        popped := popped + 1;
      }
      order := order[merchant := live];
    }

    method Token(secret: bool, code: string, clientId: string, made: string, now: int, minted: Minted) returns (granted: bool)
      modifies this
      ensures View() == Next(old(View()), Request.Token(secret, code, clientId, made, now, minted), cap)
      ensures granted <==> !secret && CodeGood(old(View()), code, clientId, made)
    {
      if secret { return false; }
      var held := if code in codes then Some(codes[code]) else None;
      codes := map c | c in codes && c != code :: codes[c];
      if held.None? || held.value.clientId != clientId || held.value.challenge != made || held.value.merchant !in order {
        return false;
      }
      IssueTokens(held.value.merchant, minted, now);
      granted := true;
    }

    method Refresh(token: Secret, clientId: string, now: int, minted: Minted) returns (granted: bool)
      modifies this
      ensures View() == Next(old(View()), Request.Refresh(token, clientId, now, minted), cap)
      ensures granted <==> RefreshGood(old(View()), token, clientId, now)
    {
      if token !in refresh || !refresh[token].live || refresh[token].expires <= now || clientId == ""
         || refresh[token].merchant !in order {
        return false;
      }
      var held := refresh[token];
      refresh := refresh[token := held.(live := false)];
      order := order[held.merchant := Removed(order[held.merchant], token)];
      spent := spent + [token];
      IssueTokens(held.merchant, minted, now);
      granted := true;
    }

    method Authorize(code: string, held: CodeHeld) returns (approved: bool)
      modifies this
      ensures View() == Next(old(View()), Request.Authorize(code, held), cap)
      ensures approved <==> held.merchant in MERCHANTS
    {
      if held.merchant !in MERCHANTS { return false; }
      codes := codes[code := held];
      approved := true;
    }

    method ExpireAccess(now: int)
      modifies this
      ensures View() == Next(old(View()), ExpireTokens(now), cap)
    {
      var left := access.Keys;
      while left != {}
        invariant left <= old(access).Keys
        invariant View() == old(View()).(access := access) && access.Keys == old(access).Keys
        invariant forall t :: t in access ==>
                    access[t] == if t in left then old(access)[t] else old(access)[t].(expires := now - 1)
        decreases left
      {
        var t :| t in left;
        access := access[t := access[t].(expires := now - 1)];
        left := left - {t};
      }
    }

    /** Every token of the merchant among `tokens` is past and dead. */
    method RevokeOf(tokens: map<Secret, Held>, merchant: Merchant) returns (revoked: map<Secret, Held>)
      ensures revoked == RevokedOf(tokens, merchant)
    {
      revoked := tokens;
      var left := tokens.Keys;
      while left != {}
        invariant left <= tokens.Keys && revoked.Keys == tokens.Keys
        invariant forall t :: t in tokens ==>
                    revoked[t] == if t in left then tokens[t] else RevokedOf(tokens, merchant)[t]
        decreases left
      {
        var t :| t in left;
        if revoked[t].merchant == merchant {
          revoked := revoked[t := revoked[t].(expires := 0, live := false)];
        }
        left := left - {t};
      }
    }

    method RevokeAll(merchant: Merchant)
      modifies this
      ensures View() == Next(old(View()), Revoke(merchant), cap)
    {
      if merchant !in MERCHANTS { return; }
      access := RevokeOf(access, merchant);
      refresh := RevokeOf(refresh, merchant);
      order := order[merchant := []];
    }
  }

  lemma KilledNone(refresh: map<Secret, Held>)
    ensures forall s: seq<Secret> {:trigger Elems(s[..0])} :: Killed(refresh, Elems(s[..0])) == refresh
  {
    forall s: seq<Secret> ensures Killed(refresh, Elems(s[..0])) == refresh { assert Elems(s[..0]) == {}; }
  }

  lemma KilledMore(refresh: map<Secret, Held>, tokens: seq<Secret>, n: nat)
    requires n < |tokens|
    ensures var k := Killed(refresh, Elems(tokens[..n]));
            Killed(refresh, Elems(tokens[..n + 1])) ==
            if tokens[n] in k then k[tokens[n] := k[tokens[n]].(live := false)] else k
  {
    assert Elems(tokens[..n + 1]) == Elems(tokens[..n]) + {tokens[n]} by {
      assert tokens[..n + 1][n] == tokens[n];
      forall t | t in Elems(tokens[..n]) ensures t in Elems(tokens[..n + 1]) {
        var i :| 0 <= i < n && tokens[..n][i] == t;
        assert tokens[..n + 1][i] == t;
      }
    }
  }

  // ---- What every run keeps ----

  ghost predicate Distinct(tokens: seq<Secret>) {
    forall i, j :: 0 <= i < j < |tokens| ==> tokens[i] != tokens[j]
  }

  /** Exactly the merchant's live refresh tokens. */
  ghost predicate Live(refresh: map<Secret, Held>, tokens: seq<Secret>, merchant: Merchant) {
    forall t :: t in Elems(tokens) <==> t in refresh && refresh[t].live && refresh[t].merchant == merchant
  }

  /** Oldest first, each once. */
  ghost predicate Aged(age: map<Secret, nat>, tokens: seq<Secret>) {
    && (forall i :: 0 <= i < |tokens| ==> tokens[i] in age)
    && (forall i, j :: 0 <= i < j < |tokens| ==> age[tokens[i]] < age[tokens[j]])
  }

  /** A merchant's list is exactly its live refresh tokens, each once, oldest
      first, and no longer than the cap. */
  ghost predicate Listed(refresh: map<Secret, Held>, age: map<Secret, nat>, tokens: seq<Secret>, merchant: Merchant, cap: nat) {
    Live(refresh, tokens, merchant) && Aged(age, tokens) && |tokens| <= cap
  }

  /** Every refresh token is numbered, and those spent are not live again. */
  ghost predicate Numbered(s: State) {
    && s.age.Keys == s.refresh.Keys
    && (forall t :: t in s.age ==> s.age[t] < |s.age|)
    && Distinct(s.spent)
    && (forall i :: 0 <= i < |s.spent| ==> s.spent[i] in s.refresh && !s.refresh[s.spent[i]].live)
  }

  ghost predicate AllListed(s: State, cap: nat) {
    && s.order.Keys == MERCHANTS
    && forall m :: m in MERCHANTS ==> Listed(s.refresh, s.age, s.order[m], m, cap)
  }

  ghost predicate Inv(s: State, cap: nat) {
    Numbered(s) && AllListed(s, cap)
  }

  /** What would be minted has never been seen. */
  ghost predicate Unseen(s: State, request: Request) {
    match request
    case Token(_, _, _, _, _, minted) => minted.refresh !in s.refresh
    case Refresh(_, _, _, minted) => minted.refresh !in s.refresh
    case _ => true
  }

  lemma ElemsSplit(tokens: seq<Secret>, n: nat)
    requires n <= |tokens|
    ensures Elems(tokens) == Elems(tokens[..n]) + Elems(tokens[n..])
  {
    forall t | t in Elems(tokens) ensures t in Elems(tokens[..n]) + Elems(tokens[n..]) {
      var i :| 0 <= i < |tokens| && tokens[i] == t;
      if i < n { assert tokens[..n][i] == t; } else { assert tokens[n..][i - n] == t; }
    }
    forall t | t in Elems(tokens[n..]) ensures t in Elems(tokens) {
      var i :| 0 <= i < |tokens| - n && tokens[n..][i] == t;
      assert tokens[n + i] == t;
    }
  }

  lemma ElemsJoin(a: seq<Secret>, b: seq<Secret>)
    ensures Elems(a + b) == Elems(a) + Elems(b)
  {
    ElemsSplit(a + b, |a|);
    assert (a + b)[..|a|] == a && (a + b)[|a|..] == b;
  }

  lemma AgedDistinct(age: map<Secret, nat>, tokens: seq<Secret>)
    requires Aged(age, tokens)
    ensures Distinct(tokens)
  {
  }

  lemma AgedMore(s: State, tokens: seq<Secret>, minted: Secret)
    requires Numbered(s) && minted !in s.refresh && Aged(s.age, tokens)
    ensures Aged(s.age[minted := |s.age|], tokens + [minted])
    ensures Aged(s.age[minted := |s.age|], tokens)
  {
    assert minted !in s.age;
    assert forall i :: 0 <= i < |tokens| ==> (tokens + [minted])[i] == tokens[i];
  }

  lemma AgedRest(age: map<Secret, nat>, tokens: seq<Secret>)
    requires Aged(age, tokens) && tokens != []
    ensures Aged(age, tokens[1..])
  {
  }

  lemma ElemsRest(tokens: seq<Secret>)
    requires Distinct(tokens) && tokens != []
    ensures Elems(tokens[1..]) == Elems(tokens) - {tokens[0]}
    ensures Elems(tokens[..1]) == {tokens[0]}
  {
    ElemsSplit(tokens, 1);
    assert tokens[..1] == [tokens[0]] && [tokens[0]][0] == tokens[0];
    forall i | 0 <= i < |tokens[1..]| ensures tokens[1..][i] != tokens[0] { assert tokens[1..][i] == tokens[i + 1]; }
  }

  /** The newest token joins its merchant's list; past the cap the oldest leaves
      it and dies. */
  lemma IssuedOwn(s: State, merchant: Merchant, minted: Minted, now: int, cap: nat)
    requires Numbered(s) && merchant in s.order && minted.refresh !in s.refresh
    requires Listed(s.refresh, s.age, s.order[merchant], merchant, cap)
    ensures var t := Issued(s, merchant, minted, now, cap); Listed(t.refresh, t.age, t.order[merchant], merchant, cap)
  {
    hide Live, Aged, Distinct, Numbered, Elems, Killed;
    var before := s.order[merchant];
    var whole := before + [minted.refresh];
    var held := Held(merchant, now + REFRESH_TTL, true);
    var age := s.age[minted.refresh := |s.age|];
    AgedMore(s, before, minted.refresh);
    LiveMore(s.refresh, before, merchant, minted.refresh, held);
    AgedDistinct(age, whole);
    if |whole| > cap {
      AgedRest(age, whole);
      LiveLess(s.refresh[minted.refresh := held], whole, merchant);
      assert whole[..|whole| - cap] == whole[..1] && whole[|whole| - cap..] == whole[1..];
    } else {
      LiveSame(s.refresh[minted.refresh := held], whole);
      assert whole[0..] == whole;
    }
  }

  lemma LiveMore(refresh: map<Secret, Held>, tokens: seq<Secret>, merchant: Merchant, minted: Secret, held: Held)
    requires Live(refresh, tokens, merchant) && held.live && held.merchant == merchant
    ensures Live(refresh[minted := held], tokens + [minted], merchant)
  {
    ElemsJoin(tokens, [minted]);
    assert Elems([minted]) == {minted} by { assert [minted][0] == minted; }
    hide Elems;
  }

  lemma LiveLess(refresh: map<Secret, Held>, tokens: seq<Secret>, merchant: Merchant)
    requires Live(refresh, tokens, merchant) && Distinct(tokens) && tokens != []
    ensures Live(Killed(refresh, Elems(tokens[..1])), tokens[1..], merchant)
  {
    ElemsRest(tokens);
    hide Elems, Distinct;
  }

  lemma LiveSame(refresh: map<Secret, Held>, tokens: seq<Secret>)
    ensures Killed(refresh, Elems(tokens[..0])) == refresh
  {
    assert tokens[..0] == [] && Elems([]) == {};
  }

  /** The other merchants' lists stay as they are. */
  lemma IssuedOther(s: State, merchant: Merchant, minted: Minted, now: int, cap: nat, m: Merchant)
    requires Numbered(s) && merchant in s.order && m in s.order && m != merchant && minted.refresh !in s.refresh
    requires Listed(s.refresh, s.age, s.order[merchant], merchant, cap)
    requires Listed(s.refresh, s.age, s.order[m], m, cap)
    ensures var t := Issued(s, merchant, minted, now, cap); Listed(t.refresh, t.age, t.order[m], m, cap)
  {
    var t := Issued(s, merchant, minted, now, cap);
    var whole := s.order[merchant] + [minted.refresh];
    ElemsJoin(s.order[merchant], [minted.refresh]);
    ElemsSplit(whole, if |whole| > cap then |whole| - cap else 0);
    AgedMore(s, s.order[m], minted.refresh);
    assert Elems([minted.refresh]) == {minted.refresh} by { assert [minted.refresh][0] == minted.refresh; }
    hide Aged, Elems;
  }

  lemma IssuedNumbered(s: State, merchant: Merchant, minted: Minted, now: int, cap: nat)
    requires Numbered(s) && merchant in s.order && minted.refresh !in s.refresh
    ensures Numbered(Issued(s, merchant, minted, now, cap))
  {
    var t := Issued(s, merchant, minted, now, cap);
    assert |t.age| == |s.age| + 1;
    assert t.age.Keys == t.refresh.Keys;
    hide Elems, Distinct;
  }

  lemma IssuedKeeps(s: State, merchant: Merchant, minted: Minted, now: int, cap: nat)
    requires Inv(s, cap) && merchant in MERCHANTS && minted.refresh !in s.refresh
    ensures Inv(Issued(s, merchant, minted, now, cap), cap)
  {
    hide MERCHANTS, Listed, Numbered, Elems, Killed;
    var t := Issued(s, merchant, minted, now, cap);
    IssuedNumbered(s, merchant, minted, now, cap);
    forall m | m in MERCHANTS ensures Listed(t.refresh, t.age, t.order[m], m, cap) {
      if m == merchant {
        IssuedOwn(s, merchant, minted, now, cap);
      } else {
        IssuedOther(s, merchant, minted, now, cap, m);
      }
    }
  }

  lemma {:induction false} RemovedIs(tokens: seq<Secret>, k: nat)
    requires k < |tokens| && forall i :: 0 <= i < k ==> tokens[i] != tokens[k]
    ensures Removed(tokens, tokens[k]) == tokens[..k] + tokens[k + 1..]
  {
    if k > 0 {
      var rest := tokens[1..];
      assert rest[k - 1] == tokens[k];
      assert forall i :: 0 <= i < k - 1 ==> rest[i] == tokens[i + 1];
      RemovedIs(rest, k - 1);
      assert [tokens[0]] + (rest[..k - 1] + rest[k..]) == tokens[..k] + tokens[k + 1..];
    }
  }

  /** A refresh token that is taken is on its merchant's list: its removal finds it. */
  lemma RemovalFinds(s: State, token: Secret, clientId: string, now: int, cap: nat) returns (k: nat)
    requires Inv(s, cap) && RefreshGood(s, token, clientId, now)
    ensures var tokens := s.order[s.refresh[token].merchant];
            && k < |tokens| && tokens[k] == token
            && (forall i :: 0 <= i < |tokens| && i != k ==> tokens[i] != token)
            && Removed(tokens, token) == tokens[..k] + tokens[k + 1..]
  {
    var merchant := s.refresh[token].merchant;
    var tokens := s.order[merchant];
    assert Listed(s.refresh, s.age, tokens, merchant, cap);
    assert token in Elems(tokens);
    k :| 0 <= k < |tokens| && tokens[k] == token;
    RemovedIs(tokens, k);
  }

  lemma AgedWithout(age: map<Secret, nat>, tokens: seq<Secret>, k: nat)
    requires Aged(age, tokens) && k < |tokens|
    ensures Aged(age, tokens[..k] + tokens[k + 1..])
  {
    var rest := tokens[..k] + tokens[k + 1..];
    assert forall i :: 0 <= i < |rest| ==> rest[i] == tokens[if i < k then i else i + 1];
  }

  lemma SpentListed(s: State, token: Secret, clientId: string, now: int, cap: nat, m: Merchant)
    requires Inv(s, cap) && RefreshGood(s, token, clientId, now) && m in MERCHANTS
    ensures var t := Spent(s, token); Listed(t.refresh, t.age, t.order[m], m, cap)
  {
    hide MERCHANTS, Numbered, Aged, Elems;
    var merchant := s.refresh[token].merchant;
    var tokens := s.order[merchant];
    var k := RemovalFinds(s, token, clientId, now, cap);
    assert Listed(s.refresh, s.age, s.order[m], m, cap);
    assert Listed(s.refresh, s.age, tokens, merchant, cap);
    hide AllListed, Removed;
    AgedWithout(s.age, tokens, k);
    ElemsWithout(tokens, k);
  }

  lemma SpentKeeps(s: State, token: Secret, clientId: string, now: int, cap: nat)
    requires Inv(s, cap) && RefreshGood(s, token, clientId, now)
    ensures Inv(Spent(s, token), cap)
  {
    var t := Spent(s, token);
    hide MERCHANTS, Listed, Elems, Numbered;
    SpentNumbered(s, token);
    forall m | m in MERCHANTS ensures Listed(t.refresh, t.age, t.order[m], m, cap) {
      SpentListed(s, token, clientId, now, cap, m);
    }
  }

  lemma SpentNumbered(s: State, token: Secret)
    requires Numbered(s) && token in s.refresh && s.refresh[token].live && s.refresh[token].merchant in s.order
    ensures Numbered(Spent(s, token))
  {
    var t := Spent(s, token);
    assert t.age.Keys == t.refresh.Keys;
    assert forall i :: 0 <= i < |s.spent| ==> s.spent[i] != token;
  }

  lemma ElemsWithout(tokens: seq<Secret>, k: nat)
    requires k < |tokens| && forall i :: 0 <= i < |tokens| && i != k ==> tokens[i] != tokens[k]
    ensures Elems(tokens[..k] + tokens[k + 1..]) == Elems(tokens) - {tokens[k]}
  {
    var rest := tokens[..k] + tokens[k + 1..];
    forall t | t in Elems(tokens) && t != tokens[k] ensures t in Elems(rest) {
      var i :| 0 <= i < |tokens| && tokens[i] == t;
      assert rest[if i < k then i else i - 1] == t;
    }
    forall t | t in Elems(rest) ensures t in Elems(tokens) && t != tokens[k] {
      var i :| 0 <= i < |rest| && rest[i] == t;
      assert tokens[if i < k then i else i + 1] == t;
    }
  }

  lemma RevokedKeeps(s: State, merchant: Merchant, cap: nat)
    requires Inv(s, cap) && merchant in MERCHANTS
    ensures Inv(Revoked(s, merchant), cap)
  {
    var t := Revoked(s, merchant);
    assert Numbered(t) by { hide Elems, AllListed, MERCHANTS, Distinct; assert t.age.Keys == t.refresh.Keys; }
    hide MERCHANTS, Numbered, Aged;
    forall m | m in MERCHANTS ensures Listed(t.refresh, t.age, t.order[m], m, cap) {
      assert Listed(s.refresh, s.age, s.order[m], m, cap);
      assert Aged(s.age, []) by { NoneAged(s.age); }
    }
  }

  lemma NoneAged(age: map<Secret, nat>)
    ensures Aged(age, [])
  {
  }

  lemma NextKeeps(s: State, request: Request, cap: nat)
    requires Inv(s, cap) && Unseen(s, request)
    ensures Inv(Next(s, request, cap), cap)
  {
    assert s.order.Keys == MERCHANTS;
    match request
    case Token(secret, code, clientId, made, now, minted) =>
      assert Inv(WithoutCode(s, code), cap);
      hide Inv, Issued;
      if CodeGood(s, code, clientId, made) {
        IssuedKeeps(WithoutCode(s, code), s.codes[code].merchant, minted, now, cap);
      }
    case Refresh(token, clientId, now, minted) =>
      hide Inv, Issued;
      if RefreshGood(s, token, clientId, now) {
        SpentKeeps(s, token, clientId, now, cap);
        IssuedKeeps(Spent(s, token), s.refresh[token].merchant, minted, now, cap);
      }
    case Revoke(merchant) => if merchant in MERCHANTS { RevokedKeeps(s, merchant, cap); }
    case _ =>
  }

  // ---- Runs ----

  /** The server after the first `n` requests. */
  ghost function At(run: seq<Request>, n: nat, cap: nat): State
    requires n <= |run|
  {
    if n == 0 then Fresh() else Next(At(run, n - 1, cap), run[n - 1], cap)
  }

  ghost predicate AllUnseen(run: seq<Request>, cap: nat) {
    forall i :: 0 <= i < |run| ==> Unseen(At(run, i, cap), run[i])
  }

  lemma UnseenAt(run: seq<Request>, i: nat, cap: nat)
    requires AllUnseen(run, cap) && i < |run|
    ensures Unseen(At(run, i, cap), run[i])
  {
  }

  lemma FreshKeeps(cap: nat)
    ensures Inv(Fresh(), cap)
  {
  }

  lemma {:induction false} RunKeeps(run: seq<Request>, n: nat, cap: nat)
    requires n <= |run| && AllUnseen(run, cap)
    ensures Inv(At(run, n, cap), cap)
  {
    hide Inv, Next, AllUnseen, Fresh, Unseen;
    if n == 0 {
      FreshKeeps(cap);
    } else {
      RunKeeps(run, n - 1, cap);
      UnseenAt(run, n - 1, cap);
      NextKeeps(At(run, n - 1, cap), run[n - 1], cap);
    }
  }

  /** In every run, a merchant's list is exactly its live refresh tokens, oldest
      first, each once, at most the cap of them. */
  lemma ListsAreLive(run: seq<Request>, n: nat, cap: nat, merchant: Merchant)
    requires n <= |run| && AllUnseen(run, cap) && merchant in MERCHANTS
    ensures var s := At(run, n, cap);
            && merchant in s.order && |s.order[merchant]| <= cap && Distinct(s.order[merchant])
            && (forall t :: t in Elems(s.order[merchant]) <==>
                  t in s.refresh && s.refresh[t].live && s.refresh[t].merchant == merchant)
            && (forall i, j :: 0 <= i < j < |s.order[merchant]| ==>
                  s.order[merchant][i] in s.age && s.order[merchant][j] in s.age
                  && s.age[s.order[merchant][i]] < s.age[s.order[merchant][j]])
  {
    RunKeeps(run, n, cap);
    hide At;
    var s := At(run, n, cap);
    assert Listed(s.refresh, s.age, s.order[merchant], merchant, cap);
  }

  lemma SpentGrows(s: State, request: Request, cap: nat)
    ensures s.spent <= Next(s, request, cap).spent
  {
  }

  lemma {:induction false} SpentStays(run: seq<Request>, m: nat, n: nat, cap: nat)
    requires m <= n <= |run|
    ensures At(run, m, cap).spent <= At(run, n, cap).spent
    decreases n
  {
    if m < n {
      SpentStays(run, m, n - 1, cap);
      SpentGrows(At(run, n - 1, cap), run[n - 1], cap);
      hide Next;
    }
  }

  /** The request at `i` exchanges this refresh token for new ones. */
  ghost predicate Exchanges(run: seq<Request>, i: nat, cap: nat, token: Secret)
    requires i < |run|
  {
    run[i].Refresh? && run[i].token == token
    && RefreshGood(At(run, i, cap), token, run[i].clientId, run[i].now)
  }

  /** Each refresh token is exchanged at most once, whatever comes between. */
  lemma ExchangedOnce(run: seq<Request>, i: nat, j: nat, cap: nat, token: Secret)
    requires AllUnseen(run, cap) && i < |run| && j < |run|
    requires Exchanges(run, i, cap, token) && Exchanges(run, j, cap, token)
    ensures i == j
  {
    if i < j {
      NotTwice(run, i, j, cap, token);
    } else if j < i {
      NotTwice(run, j, i, cap, token);
    }
  }

  lemma NotTwice(run: seq<Request>, i: nat, j: nat, cap: nat, token: Secret)
    requires AllUnseen(run, cap) && i < j < |run| && Exchanges(run, i, cap, token)
    ensures !Exchanges(run, j, cap, token)
  {
    hide AllListed, Issued, Distinct, Elems;
    var s := At(run, i, cap);
    var t := At(run, i + 1, cap);
    assert t == Next(s, run[i], cap);
    assert t.spent == s.spent + [token] by { IssuedSpends(Spent(s, token), s.refresh[token].merchant, run[i].minted, run[i].now, cap); }
    hide Next, At;
    assert t.spent[|s.spent|] == token;
    SpentStays(run, i + 1, j, cap);
    RunKeeps(run, j, cap);
    var u := At(run, j, cap);
    assert u.spent[|s.spent|] == token;
  }

  lemma IssuedSpends(s: State, merchant: Merchant, minted: Minted, now: int, cap: nat)
    requires merchant in s.order
    ensures Issued(s, merchant, minted, now, cap).spent == s.spent
  {
  }

  // ---- No request finds a list missing ----

  /** Every code and refresh token is for a merchant there is. */
  ghost predicate ForMerchants(s: State) {
    && s.order.Keys == MERCHANTS
    && (forall c :: c in s.codes ==> s.codes[c].merchant in MERCHANTS)
    && (forall t :: t in s.refresh ==> s.refresh[t].merchant in MERCHANTS)
  }

  lemma NextForMerchants(s: State, request: Request, cap: nat)
    requires ForMerchants(s)
    ensures ForMerchants(Next(s, request, cap))
  {
    hide MERCHANTS, Elems, Removed;
  }

  /** In every run, a request that is in order finds its merchant's list: being
      refused for want of one never happens. */
  lemma {:induction false} ListsExist(run: seq<Request>, n: nat, cap: nat)
    requires n <= |run|
    ensures ForMerchants(At(run, n, cap))
    decreases n
  {
    if n == 0 {
      FreshForMerchants();
    } else {
      hide Next, ForMerchants;
      ListsExist(run, n - 1, cap);
      NextForMerchants(At(run, n - 1, cap), run[n - 1], cap);
    }
  }

  lemma FreshForMerchants()
    ensures ForMerchants(Fresh())
  {
  }
}
