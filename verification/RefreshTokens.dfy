/** Rotation of refresh tokens (backend/src/auth/service.py). */
module RefreshTokens {
  import opened Options

  // ----- the token table -----

  datatype Token = Token(
    id: string,
    user: string,
    hash: string,
    createdAt: int,
    expiresAt: int,
    revokedAt: Option<int>,
    replacedBy: Option<string>)

  /** `_REFRESH_TOKENS`, with its insertion order, and `_REFRESH_TOKENS_BY_HASH`. */
  datatype Table = Table(order: seq<string>, tokens: map<string, Token>, byHash: map<string, string>)

  const EMPTY: Table := Table([], map[], map[])

  /** SHA-256 is a parameter, taken to be injective. */
  type Hash = string -> string

  ghost predicate Injective(h: Hash) {
    forall a, b :: h(a) == h(b) ==> a == b
  }

  datatype Settings = Settings(configured: bool, lifetime: int)

  datatype Response = Misconfigured | Unauthorized | Issued(user: string, raw: string)

  function NewToken(h: Hash, s: Settings, user: string, raw: string, id: string, now: int): Token {
    Token(id, user, h(raw), now, now + s.lifetime, None, None)
  }

  function Issue(t: Table, token: Token): Table {
    Table(t.order + [token.id], t.tokens[token.id := token], t.byHash[token.hash := token.id])
  }

  /** `_find_refresh_record`: the key of the record, through the hash index. */
  function FindId(t: Table, h: Hash, raw: string): (id: Option<string>)
    ensures id.Some? ==> id.value in t.tokens
  {
    if raw == "" || h(raw) !in t.byHash || t.byHash[h(raw)] == "" || t.byHash[h(raw)] !in t.tokens then None
    else Some(t.byHash[h(raw)])
  }

  function Find(t: Table, h: Hash, raw: string): Option<Token> {
    var id := FindId(t, h, raw);
    if id.Some? then Some(t.tokens[id.value]) else None
  }

  function Revoke(t: Table, id: string, now: int, replacedBy: Option<string>): Table
    requires id in t.tokens
  {
    var rec := t.tokens[id];
    t.(tokens := t.tokens[id := rec.(revokedAt := Some(now),
                                     replacedBy := if replacedBy.Some? then replacedBy else rec.replacedBy)])
  }

  function RevokedIf(rec: Token, user: string, now: int): Token {
    if rec.user == user && rec.revokedAt.None? then rec.(revokedAt := Some(now)) else rec
  }

  function RevokeAll(t: Table, user: string, now: int): Table {
    t.(tokens := map id | id in t.tokens :: RevokedIf(t.tokens[id], user, now))
  }

  function Login(t: Table, h: Hash, s: Settings, user: string, raw: string, id: string, now: int): (Table, Response) {
    if !s.configured then (t, Misconfigured)
    else (Issue(t, NewToken(h, s, user, raw, id, now)), Issued(user, raw))
  }

  function Refresh(t: Table, h: Hash, s: Settings, presented: string, raw: string, id: string, now: int): (Table, Response) {
    if !s.configured then (t, Misconfigured)
    else
      var found := Find(t, h, presented);
      if found.None? || found.value.expiresAt <= now then (t, Unauthorized)
      else if found.value.revokedAt.Some? || found.value.replacedBy.Some? then
        (RevokeAll(t, found.value.user, now), Unauthorized)
      else
        var t1 := Issue(t, NewToken(h, s, found.value.user, raw, id, now));
        (Revoke(t1, FindId(t, h, presented).value, now, Some(id)), Issued(found.value.user, raw))
  }

  function Logout(t: Table, h: Hash, presented: string, now: int): Table {
    var found := FindId(t, h, presented);
    if found.None? then t else Revoke(t, found.value, now, None)
  }

  // ----- what the table keeps -----

  function IndexOf(order: seq<string>, id: string): nat {
    if order == [] || order[0] == id then 0 else 1 + IndexOf(order[1..], id)
  }

  lemma {:induction false} IndexAppend(order: seq<string>, id: string, x: string)
    ensures x in order ==> IndexOf(order + [id], x) == IndexOf(order, x) < |order|
    ensures x !in order ==> IndexOf(order, x) == |order|
    ensures id !in order ==> IndexOf(order + [id], id) == |order|
  {
    if order != [] {
      assert (order + [id])[1..] == order[1..] + [id];
      IndexAppend(order[1..], id, x);
      assert order == [order[0]] + order[1..];
    }
  }

  /** The dictionary lists its keys once each, and every record sits under its own id. */
  ghost predicate TableOk(t: Table) {
    && (forall id :: id in t.tokens <==> id in t.order)
    && (forall i, j :: 0 <= i < j < |t.order| ==> t.order[i] != t.order[j])
    && (forall id :: id in t.tokens ==> t.tokens[id].id == id && id != "")
  }

  /** The hash index and the token table are each other's inverse. */
  ghost predicate IndexAgrees(t: Table) {
    && (forall hash :: hash in t.byHash ==>
          t.byHash[hash] in t.tokens && t.tokens[t.byHash[hash]].hash == hash)
    && (forall id :: id in t.tokens ==>
          t.tokens[id].hash in t.byHash && t.byHash[t.tokens[id].hash] == id)
  }

  /** `b` replaced `a`. */
  ghost predicate Linked(t: Table, a: string, b: string) {
    a in t.tokens && t.tokens[a].replacedBy == Some(b)
  }

  ghost predicate LinkOk(t: Table, a: string, b: string)
    requires a in t.tokens
  {
    && b in t.tokens
    && t.tokens[b].user == t.tokens[a].user
    && IndexOf(t.order, a) < IndexOf(t.order, b)
    && t.tokens[a].revokedAt.Some?
  }

  /** A replaced token is revoked, its replacement is a later token of the same user, and no token
      replaces two. */
  ghost predicate LinksOk(t: Table) {
    && (forall a, b :: Linked(t, a, b) ==> a in t.tokens && LinkOk(t, a, b))
    && (forall a, a', b :: Linked(t, a, b) && Linked(t, a', b) ==> a == a')
  }

  ghost predicate Inv(t: Table) {
    TableOk(t) && IndexAgrees(t) && LinksOk(t)
  }

  /** Ids and token strings come from uuid4: neither has been seen before. */
  ghost predicate Fresh(t: Table, h: Hash, raw: string, id: string) {
    id != "" && id !in t.tokens && raw != "" && h(raw) !in t.byHash
  }

  lemma IssueKeeps(t: Table, h: Hash, s: Settings, user: string, raw: string, id: string, now: int)
    requires Inv(t) && Fresh(t, h, raw, id)
    ensures Inv(Issue(t, NewToken(h, s, user, raw, id, now)))
  {
    var token := NewToken(h, s, user, raw, id, now);
    var t' := Issue(t, token);
    forall a, b | Linked(t', a, b) ensures a in t'.tokens && LinkOk(t', a, b) && Linked(t, a, b) {
      assert a != id;
      assert Linked(t, a, b);
      IndexAppend(t.order, id, a);
      IndexAppend(t.order, id, b);
    }
  }

  lemma NobodyLinksTo(t: Table, id: string)
    requires Inv(t) && id !in t.tokens
    ensures forall a :: !Linked(t, a, id)
  {
    assert forall a :: Linked(t, a, id) ==> LinkOk(t, a, id);
  }

  lemma RevokeKeepsTable(t: Table, id: string, now: int, replacedBy: Option<string>)
    requires TableOk(t) && IndexAgrees(t) && id in t.tokens
    ensures TableOk(Revoke(t, id, now, replacedBy)) && IndexAgrees(Revoke(t, id, now, replacedBy))
  {
  }

  /** After a rotation the only new link leads from the presented token to the one just issued. */
  lemma RotationLinks(t: Table, token: Token, prior: string, now: int, a: string, b: string)
    requires prior in t.tokens && token.id !in t.tokens && token.replacedBy.None?
    requires Linked(Revoke(Issue(t, token), prior, now, Some(token.id)), a, b)
    ensures if a == prior then b == token.id else Linked(t, a, b)
  {
  }

  lemma LinkOkLater(t: Table, token: Token, prior: string, now: int, a: string, b: string)
    requires a in t.tokens && LinkOk(t, a, b) && prior in t.tokens && token.id !in t.tokens && TableOk(t)
    ensures LinkOk(Revoke(Issue(t, token), prior, now, Some(token.id)), a, b)
  {
    IndexAppend(t.order, token.id, a);
    IndexAppend(t.order, token.id, b);
  }

  lemma NewLinkOk(t: Table, token: Token, prior: string, now: int)
    requires prior in t.tokens && token.id !in t.tokens && TableOk(t) && token.user == t.tokens[prior].user
    ensures LinkOk(Revoke(Issue(t, token), prior, now, Some(token.id)), prior, token.id)
  {
    IndexAppend(t.order, token.id, prior);
  }

  /** Revoking the presented token in favour of the one just issued. */
  lemma ReplaceKeeps(t: Table, token: Token, prior: string, now: int)
    requires Inv(t) && Inv(Issue(t, token)) && token.id !in t.tokens && prior in t.tokens
    requires token.user == t.tokens[prior].user && token.replacedBy.None?
    ensures Inv(Revoke(Issue(t, token), prior, now, Some(token.id)))
  {
    hide TableOk, IndexAgrees, Linked, LinkOk, Issue, Revoke;
    IssueHas(t, token, prior);
    var t2 := Revoke(Issue(t, token), prior, now, Some(token.id));
    RevokeKeepsTable(Issue(t, token), prior, now, Some(token.id));
    NobodyLinksTo(t, token.id);
    forall a, b | Linked(t2, a, b) ensures a in t2.tokens && LinkOk(t2, a, b) {
      RotationLinks(t, token, prior, now, a, b);
      LinkedIn(t2, a, b);
      if a == prior { NewLinkOk(t, token, prior, now); } else { LinkOkLater(t, token, prior, now, a, b); }
    }
    forall a, a', b | Linked(t2, a, b) && Linked(t2, a', b) ensures a == a' {
      RotationLinks(t, token, prior, now, a, b);
      RotationLinks(t, token, prior, now, a', b);
    }
  }

  lemma IssueHas(t: Table, token: Token, id: string)
    requires id in t.tokens
    ensures id in Issue(t, token).tokens
  {
  }

  lemma LinkedIn(t: Table, a: string, b: string)
    requires Linked(t, a, b)
    ensures a in t.tokens
  {
  }

  lemma RevokeKeeps(t: Table, id: string, now: int)
    requires Inv(t) && id in t.tokens
    ensures Inv(Revoke(t, id, now, None))
  {
    var t' := Revoke(t, id, now, None);
    forall a, b | Linked(t', a, b) ensures LinkOk(t', a, b) && Linked(t, a, b) {
      assert Linked(t, a, b);
    }
  }

  lemma RevokeAllKeeps(t: Table, user: string, now: int)
    requires Inv(t)
    ensures Inv(RevokeAll(t, user, now))
  {
    var t' := RevokeAll(t, user, now);
    forall a, b | Linked(t', a, b) ensures LinkOk(t', a, b) && Linked(t, a, b) {
      assert Linked(t, a, b);
    }
  }

  lemma FindIn(t: Table, h: Hash, raw: string)
    requires Inv(t)
    ensures Find(t, h, raw).Some? ==>
              Find(t, h, raw).value.id in t.tokens
              && t.tokens[Find(t, h, raw).value.id] == Find(t, h, raw).value
              && Find(t, h, raw).value.hash == h(raw)
              && FindId(t, h, raw) == Some(Find(t, h, raw).value.id)
  {
  }

  lemma RefreshKeeps(t: Table, h: Hash, s: Settings, presented: string, raw: string, id: string, now: int)
    requires Inv(t) && Fresh(t, h, raw, id)
    ensures Inv(Refresh(t, h, s, presented, raw, id, now).0)
  {
    hide Inv;
    FindIn(t, h, presented);
    var found := Find(t, h, presented);
    if s.configured && found.Some? && found.value.expiresAt > now {
      if found.value.revokedAt.Some? || found.value.replacedBy.Some? {
        RevokeAllKeeps(t, found.value.user, now);
      } else {
        IssueKeeps(t, h, s, found.value.user, raw, id, now);
        ReplaceKeeps(t, NewToken(h, s, found.value.user, raw, id, now), found.value.id, now);
      }
    }
  }

  lemma LogoutKeeps(t: Table, h: Hash, presented: string, now: int)
    requires Inv(t)
    ensures Inv(Logout(t, h, presented, now))
  {
    FindIn(t, h, presented);
    hide Inv;
    var found := Find(t, h, presented);
    if found.Some? { RevokeKeeps(t, found.value.id, now); }
  }

  // ----- chains of replacements -----

  /** A walk along `replaced_by`. */
  ghost predicate Chain(t: Table, p: seq<string>) {
    && p != [] && p[0] in t.tokens
    && forall i :: 0 <= i < |p| - 1 ==> Linked(t, p[i], p[i + 1])
  }

  /** A chain moves strictly forward in issue order - so it has no cycle -, stays with one user, and
      only its last token can be unrevoked. */
  lemma {:induction false} ChainFacts(t: Table, p: seq<string>)
    requires Inv(t) && Chain(t, p)
    ensures forall i :: 0 <= i < |p| ==> p[i] in t.tokens && t.tokens[p[i]].user == t.tokens[p[0]].user
    ensures forall i, j :: 0 <= i < j < |p| ==> IndexOf(t.order, p[i]) < IndexOf(t.order, p[j])
    ensures forall i :: 0 <= i < |p| - 1 ==> t.tokens[p[i]].revokedAt.Some?
    decreases |p|
  {
    hide Inv, Linked, LinkOk, IndexOf;
    if |p| > 1 {
      var front, a, b := p[..|p| - 1], p[|p| - 2], p[|p| - 1];
      ChainFacts(t, front);
      assert front[|p| - 2] == a;
      assert Linked(t, a, b);
      LinkFacts(t, a, b);
      forall i, j | 0 <= i < j < |p| ensures IndexOf(t.order, p[i]) < IndexOf(t.order, p[j]) {
        if j == |p| - 1 {
          assert i < |p| - 2 ==> IndexOf(t.order, front[i]) < IndexOf(t.order, front[|p| - 2]);
        } else {
          assert IndexOf(t.order, front[i]) < IndexOf(t.order, front[j]);
        }
      }
      forall i | 0 <= i < |p| ensures p[i] in t.tokens && t.tokens[p[i]].user == t.tokens[p[0]].user {
        if i < |p| - 1 { assert front[i] == p[i]; }
      }
      forall i | 0 <= i < |p| - 1 ensures t.tokens[p[i]].revokedAt.Some? {
        if i < |p| - 2 { assert t.tokens[front[i]].revokedAt.Some?; }
      }
    }
  }

  lemma LinkFacts(t: Table, a: string, b: string)
    requires Inv(t) && Linked(t, a, b)
    ensures a in t.tokens && b in t.tokens && t.tokens[b].user == t.tokens[a].user
    ensures IndexOf(t.order, a) < IndexOf(t.order, b) && t.tokens[a].revokedAt.Some?
  {
    assert LinkOk(t, a, b);
  }

  /** Chains are disjoint: two that reach the same token share everything before it. */
  lemma {:induction false} ChainsAreDisjoint(t: Table, p: seq<string>, q: seq<string>)
    requires Inv(t) && Chain(t, p) && Chain(t, q) && |p| <= |q|
    requires p[|p| - 1] == q[|q| - 1]
    ensures p == q[|q| - |p|..]
    decreases |p|
  {
    if |p| > 1 {
      assert Linked(t, p[|p| - 2], p[|p| - 1]);
      assert Linked(t, q[|q| - 2], q[|q| - 1]);
      var p', q' := p[..|p| - 1], q[..|q| - 1];
      ChainsAreDisjoint(t, p', q');
      assert p == p' + [p[|p| - 1]];
      assert q[|q| - |p|..] == q'[|q'| - |p'|..] + [q[|q| - 1]];
    }
  }

  // ----- one call -----

  ghost function Live(t: Table): set<string> {
    set id | id in t.tokens && t.tokens[id].revokedAt.None?
  }

  ghost function LiveOf(t: Table, user: string): set<string> {
    set id | id in t.tokens && t.tokens[id].user == user && t.tokens[id].revokedAt.None?
  }

  /** A token can still be refreshed. */
  ghost predicate Usable(t: Table, h: Hash, raw: string, now: int) {
    var found := Find(t, h, raw);
    found.Some? && found.value.expiresAt > now && found.value.revokedAt.None? && found.value.replacedBy.None?
  }

  /** A refresh succeeds exactly on an unexpired, unrevoked token; then the presented token is revoked,
      its successor is live, and no other token changes. */
  lemma RefreshSucceedsIff(t: Table, h: Hash, s: Settings, presented: string, raw: string, id: string, now: int)
    requires Inv(t) && Fresh(t, h, raw, id)
    ensures var (t', response) := Refresh(t, h, s, presented, raw, id, now);
      && (response.Issued? <==> s.configured && Usable(t, h, presented, now))
      && (response.Issued? ==>
            var was := Find(t, h, presented).value;
            && response == Issued(was.user, raw)
            && Find(t', h, raw) == Some(NewToken(h, s, was.user, raw, id, now))
            && (forall later :: Usable(t', h, raw, later) <==> later < now + s.lifetime)
            && !Usable(t', h, presented, now) && Linked(t', was.id, id)
            && Live(t') == Live(t) - {was.id} + {id}
            && (forall x :: x in t.tokens && x != was.id ==> x in t'.tokens && t'.tokens[x] == t.tokens[x]))
  {
    FindIn(t, h, presented);
  }

  /** Presenting an unexpired token that was revoked or replaced leaves its user no live token, and
      touches nobody else's. */
  lemma ReuseRevokesEverything(t: Table, h: Hash, s: Settings, presented: string, raw: string, id: string, now: int)
    requires Inv(t) && s.configured
    requires Find(t, h, presented).Some? && Find(t, h, presented).value.expiresAt > now
    requires Find(t, h, presented).value.revokedAt.Some? || Find(t, h, presented).value.replacedBy.Some?
    ensures var (t', response) := Refresh(t, h, s, presented, raw, id, now);
      var user := Find(t, h, presented).value.user;
      && response == Unauthorized
      && LiveOf(t', user) == {}
      && (forall x :: x in t.tokens && t.tokens[x].user != user ==> x in t'.tokens && t'.tokens[x] == t.tokens[x])
  {
  }

  /** After a login the new token, and nothing else, has become live; it can be refreshed until its lifetime
      is over. */
  lemma LoginIssues(t: Table, h: Hash, s: Settings, user: string, raw: string, id: string, now: int)
    requires Inv(t) && Fresh(t, h, raw, id)
    ensures var (t', response) := Login(t, h, s, user, raw, id, now);
      if !s.configured then t' == t && response == Misconfigured
      else
        && response == Issued(user, raw)
        && (forall later :: Usable(t', h, raw, later) <==> later < now + s.lifetime)
        && Live(t') == Live(t) + {id} && LiveOf(t', user) == LiveOf(t, user) + {id}
        && (forall x :: x in t.tokens ==> x in t'.tokens && t'.tokens[x] == t.tokens[x])
  {
  }

  /** After a logout with a known token that token cannot be refreshed at any time, it alone has stopped being
      live, and no other record has changed; a logout with an unknown or empty token changes nothing. */
  lemma LogoutRevokes(t: Table, h: Hash, presented: string, now: int)
    requires Inv(t)
    ensures var t' := Logout(t, h, presented, now);
      match Find(t, h, presented)
      case None => t' == t
      case Some(was) =>
        && (forall later :: !Usable(t', h, presented, later))
        && t'.tokens.Keys == t.tokens.Keys && t'.order == t.order && t'.byHash == t.byHash
        && t'.tokens[was.id] == was.(revokedAt := Some(now))
        && (forall x :: x in t.tokens && x != was.id ==> t'.tokens[x] == t.tokens[x])
        && Live(t') == Live(t) - {was.id}
  {
    FindIn(t, h, presented);
  }

  // ----- runs -----

  datatype System = System(
    t: Table,
    issued: set<string>,        // token strings handed out
    logins: nat,                // successful logins
    refreshed: seq<string>)     // token strings that were refreshed successfully, in order

  const START: System := System(EMPTY, {}, 0, [])

  datatype Event =
    | DoLogin(user: string, raw: string, id: string, now: int)
    | DoRefresh(presented: string, raw: string, id: string, now: int)
    | DoLogout(presented: string, now: int)

  predicate Enabled(s: System, e: Event) {
    e.DoLogout? || (e.id != "" && e.id !in s.t.tokens && e.raw != "" && e.raw !in s.issued)
  }

  function Next(h: Hash, cfg: Settings, s: System, e: Event): System {
    match e
    case DoLogin(user, raw, id, now) =>
      var (t, response) := Login(s.t, h, cfg, user, raw, id, now);
      if response.Issued? then System(t, s.issued + {raw}, s.logins + 1, s.refreshed) else s
    case DoRefresh(presented, raw, id, now) =>
      var (t, response) := Refresh(s.t, h, cfg, presented, raw, id, now);
      if response.Issued? then System(t, s.issued + {raw}, s.logins, s.refreshed + [presented])
      else s.(t := t)
    case DoLogout(presented, now) => s.(t := Logout(s.t, h, presented, now))
  }

  ghost predicate IsRun(h: Hash, cfg: Settings, s: System, events: seq<Event>)
    decreases |events|
  {
    events == [] || (Enabled(s, events[0]) && IsRun(h, cfg, Next(h, cfg, s, events[0]), events[1..]))
  }

  ghost function After(h: Hash, cfg: Settings, s: System, events: seq<Event>): System
    decreases |events|
  {
    if events == [] then s else After(h, cfg, Next(h, cfg, s, events[0]), events[1..])
  }

  ghost predicate Spent(t: Table, h: Hash, raw: string) {
    Find(t, h, raw).Some? && Find(t, h, raw).value.replacedBy.Some?
  }

  ghost predicate Revoked(t: Table, h: Hash, raw: string) {
    Find(t, h, raw).Some? && Find(t, h, raw).value.revokedAt.Some?
  }

  ghost predicate OnlyIssued(t: Table, h: Hash, issued: set<string>) {
    forall hash :: hash in t.byHash ==> exists raw :: raw in issued && h(raw) == hash
  }

  ghost predicate SystemInv(h: Hash, s: System) {
    && Inv(s.t)
    && OnlyIssued(s.t, h, s.issued)
    && |Live(s.t)| <= s.logins
    && (forall i :: 0 <= i < |s.refreshed| ==> Spent(s.t, h, s.refreshed[i]))
    && (forall i, j :: 0 <= i < j < |s.refreshed| ==> s.refreshed[i] != s.refreshed[j])
  }

  /** A new token string hashes to something new. */
  lemma FreshHash(h: Hash, s: System, raw: string)
    requires Injective(h) && OnlyIssued(s.t, h, s.issued) && raw !in s.issued
    ensures h(raw) !in s.t.byHash
  {
  }

  /** The record later on: who it belongs to and when it expires stay, and no revocation is undone. */
  predicate Older(a: Token, b: Token) {
    && b == a.(revokedAt := b.revokedAt, replacedBy := b.replacedBy)
    && (a.revokedAt.Some? ==> b.revokedAt.Some?)
    && (a.replacedBy.Some? ==> b.replacedBy.Some?)
  }

  ghost predicate Ages(t: Table, t': Table) {
    && (forall hash :: hash in t.byHash ==> hash in t'.byHash && t'.byHash[hash] == t.byHash[hash])
    && (forall id :: id in t.tokens ==> id in t'.tokens && Older(t.tokens[id], t'.tokens[id]))
  }

  lemma IssueAges(t: Table, token: Token)
    requires token.hash !in t.byHash && token.id !in t.tokens
    ensures Ages(t, Issue(t, token))
  {
  }

  lemma RevokeAges(t: Table, t': Table, id: string, now: int, replacedBy: Option<string>)
    requires Ages(t, t') && id in t'.tokens
    ensures Ages(t, Revoke(t', id, now, replacedBy))
  {
  }

  lemma RevokeAllAges(t: Table, user: string, now: int)
    ensures Ages(t, RevokeAll(t, user, now))
  {
  }

  lemma AgesSame(t: Table)
    ensures Ages(t, t)
  {
  }

  lemma AgesTransitive(t: Table, t': Table, t'': Table)
    requires Ages(t, t') && Ages(t', t'')
    ensures Ages(t, t'')
  {
    hide Older;
    forall id | id in t.tokens ensures id in t''.tokens && Older(t.tokens[id], t''.tokens[id]) {
      OlderTransitive(t.tokens[id], t'.tokens[id], t''.tokens[id]);
    }
  }

  lemma OlderTransitive(a: Token, b: Token, c: Token)
    requires Older(a, b) && Older(b, c)
    ensures Older(a, c)
  {
  }

  lemma RefreshAges(t: Table, h: Hash, cfg: Settings, presented: string, raw: string, id: string, now: int)
    requires Inv(t) && Fresh(t, h, raw, id)
    ensures Ages(t, Refresh(t, h, cfg, presented, raw, id, now).0)
  {
    hide Inv, Ages;
    AgesSame(t);
    FindIn(t, h, presented);
    var found := Find(t, h, presented);
    if cfg.configured && found.Some? && found.value.expiresAt > now {
      if found.value.revokedAt.Some? || found.value.replacedBy.Some? {
        RevokeAllAges(t, found.value.user, now);
      } else {
        var token := NewToken(h, cfg, found.value.user, raw, id, now);
        IssueAges(t, token);
        RevokeAges(t, Issue(t, token), found.value.id, now, Some(id));
      }
    }
  }

  lemma LogoutAges(t: Table, h: Hash, presented: string, now: int)
    ensures Ages(t, Logout(t, h, presented, now))
  {
    hide Ages;
    AgesSame(t);
    var found := FindId(t, h, presented);
    if found.Some? { RevokeAges(t, t, found.value, now, None); }
  }

  /** Once revoked, and once replaced, a token stays so. */
  lemma SpentAges(t: Table, t': Table, h: Hash, raw: string)
    requires Ages(t, t')
    ensures Spent(t, h, raw) ==> Spent(t', h, raw)
    ensures Revoked(t, h, raw) ==> Revoked(t', h, raw)
  {
  }

  lemma TableIsOk(t: Table)
    requires Inv(t)
    ensures TableOk(t)
  {
  }

  lemma LiveAfterIssue(t: Table, token: Token)
    requires token.revokedAt.None?
    ensures Live(Issue(t, token)) == Live(t) + {token.id}
  {
  }

  lemma LiveShrinks(t: Table, t': Table)
    requires Live(t') <= Live(t)
    ensures |Live(t')| <= |Live(t)|
  {
    Smaller(Live(t'), Live(t));
  }

  lemma Smaller<T>(a: set<T>, b: set<T>)
    requires a <= b
    ensures |a| <= |b|
  {
    assert b == a + (b - a);
  }

  lemma RefreshSuccess(h: Hash, cfg: Settings, s: System, presented: string, raw: string, id: string, now: int)
    requires Inv(s.t) && Fresh(s.t, h, raw, id)
    ensures var (t, response) := Refresh(s.t, h, cfg, presented, raw, id, now);
      && |Live(t)| <= |Live(s.t)|
      && (response.Issued? ==> !Spent(s.t, h, presented) && Spent(t, h, presented)
                               && t.byHash == s.t.byHash[h(raw) := id])
      && (!response.Issued? ==> t.byHash == s.t.byHash)
  {
    var (t, response) := Refresh(s.t, h, cfg, presented, raw, id, now);
    RefreshSucceedsIff(s.t, h, cfg, presented, raw, id, now);
    FindIn(s.t, h, presented);
    if response.Issued? {
      var was := Find(s.t, h, presented).value;
      assert was.id in Live(s.t);
      assert |Live(s.t) - {was.id} + {id}| <= |Live(s.t)|;
    } else {
      LiveShrinks(s.t, t);
    }
  }

  lemma StepAges(h: Hash, cfg: Settings, s: System, e: Event)
    requires Injective(h) && SystemInv(h, s) && Enabled(s, e)
    ensures Ages(s.t, Next(h, cfg, s, e).t)
  {
    hide Inv, Spent, Live, OnlyIssued, Injective, Ages;
    AgesSame(s.t);
    match e
    case DoLogin(user, raw, id, now) =>
      FreshHash(h, s, raw);
      IssueAges(s.t, NewToken(h, cfg, user, raw, id, now));
    case DoRefresh(presented, raw, id, now) =>
      FreshHash(h, s, raw);
      RefreshAges(s.t, h, cfg, presented, raw, id, now);
    case DoLogout(presented, now) =>
      LogoutAges(s.t, h, presented, now);
  }

  lemma StepKeeps(h: Hash, cfg: Settings, s: System, e: Event)
    requires Injective(h) && SystemInv(h, s) && Enabled(s, e)
    ensures SystemInv(h, Next(h, cfg, s, e))
  {
    hide Inv, Spent, Live, OnlyIssued, Injective, Ages;
    StepAges(h, cfg, s, e);
    forall i | 0 <= i < |s.refreshed| ensures Spent(Next(h, cfg, s, e).t, h, s.refreshed[i]) {
      SpentAges(s.t, Next(h, cfg, s, e).t, h, s.refreshed[i]);
    }
    match e
    case DoLogin(user, raw, id, now) =>
      if cfg.configured {
        FreshHash(h, s, raw);
        var token := NewToken(h, cfg, user, raw, id, now);
        IssueKeeps(s.t, h, cfg, user, raw, id, now);
        LiveAfterIssue(s.t, token);
        IssuedGrows(s.t, h, s.issued, Issue(s.t, token), raw, id);
      }
    case DoRefresh(presented, raw, id, now) =>
      FreshHash(h, s, raw);
      var (t, response) := Refresh(s.t, h, cfg, presented, raw, id, now);
      RefreshKeeps(s.t, h, cfg, presented, raw, id, now);
      RefreshSuccess(h, cfg, s, presented, raw, id, now);
      if response.Issued? {
        IssuedGrows(s.t, h, s.issued, t, raw, id);
      } else {
        IssuedSame(s.t, h, s.issued, t);
      }
    case DoLogout(presented, now) =>
      LogoutStep(h, s, presented, now);
  }

  lemma IssuedGrows(t: Table, h: Hash, issued: set<string>, t': Table, raw: string, id: string)
    requires OnlyIssued(t, h, issued) && t'.byHash == t.byHash[h(raw) := id]
    ensures OnlyIssued(t', h, issued + {raw})
  {
    forall hash | hash in t'.byHash ensures exists r :: r in issued + {raw} && h(r) == hash {
      if hash == h(raw) {
        assert raw in issued + {raw};
      } else {
        var r :| r in issued && h(r) == hash;
        assert r in issued + {raw};
      }
    }
  }

  lemma IssuedSame(t: Table, h: Hash, issued: set<string>, t': Table)
    requires OnlyIssued(t, h, issued) && t'.byHash == t.byHash
    ensures OnlyIssued(t', h, issued)
  {
  }

  lemma LogoutStep(h: Hash, s: System, presented: string, now: int)
    requires SystemInv(h, s)
    ensures SystemInv(h, s.(t := Logout(s.t, h, presented, now)))
  {
    hide Inv, Spent, OnlyIssued, Ages;
    var t := Logout(s.t, h, presented, now);
    LogoutKeeps(s.t, h, presented, now);
    LogoutAges(s.t, h, presented, now);
    FindIn(s.t, h, presented);
    IssuedSame(s.t, h, s.issued, t);
    LiveShrinks(s.t, t);
    forall i | 0 <= i < |s.refreshed| ensures Spent(t, h, s.refreshed[i]) {
      SpentAges(s.t, t, h, s.refreshed[i]);
    }
  }

  lemma StartsWell(h: Hash)
    ensures SystemInv(h, START)
  {
    assert Live(EMPTY) == {};
  }

  lemma {:induction false} RunKeeps(h: Hash, cfg: Settings, s: System, events: seq<Event>)
    requires Injective(h) && SystemInv(h, s) && IsRun(h, cfg, s, events)
    ensures SystemInv(h, After(h, cfg, s, events))
    decreases |events|
  {
    hide SystemInv, Injective, Enabled;
    if events != [] {
      StepKeeps(h, cfg, s, events[0]);
      RunKeeps(h, cfg, Next(h, cfg, s, events[0]), events[1..]);
    }
  }

  /** In every run the invariant of the table holds, on which the facts about chains rest: the index and the
      table agree, replacements are forward and within a user. Beyond it, no token is refreshed twice, and
      there are never more live tokens than there were logins. */
  lemma EveryRun(h: Hash, cfg: Settings, events: seq<Event>)
    requires Injective(h) && IsRun(h, cfg, START, events)
    ensures var s := After(h, cfg, START, events);
      && Inv(s.t)
      && IndexAgrees(s.t)
      && LinksOk(s.t)
      && (forall i, j :: 0 <= i < j < |s.refreshed| ==> s.refreshed[i] != s.refreshed[j])
      && |Live(s.t)| <= s.logins
  {
    StartsWell(h);
    RunKeeps(h, cfg, START, events);
  }

  /** No run forgets a record, changes whose it is or when it expires, or undoes a revocation. */
  lemma {:induction false} NothingIsForgotten(h: Hash, cfg: Settings, s: System, events: seq<Event>)
    requires Injective(h) && SystemInv(h, s) && IsRun(h, cfg, s, events)
    ensures Ages(s.t, After(h, cfg, s, events).t)
    decreases |events|
  {
    hide SystemInv, Injective, Enabled, Ages, Next;
    AgesSame(s.t);
    if events != [] {
      var s' := Next(h, cfg, s, events[0]);
      StepAges(h, cfg, s, events[0]);
      StepKeeps(h, cfg, s, events[0]);
      NothingIsForgotten(h, cfg, s', events[1..]);
      AgesTransitive(s.t, s'.t, After(h, cfg, s', events[1..]).t);
    }
  }

  /** Once a known token was presented to a logout, no refresh with it is ever answered with a new one,
      whatever happens in between. */
  lemma LogoutIsFinal(
    h: Hash, cfg: Settings, earlier: seq<Event>, presented: string, now: int, later: seq<Event>,
    raw: string, id: string, when: int)
    requires Injective(h) && IsRun(h, cfg, START, earlier)
    requires Find(After(h, cfg, START, earlier).t, h, presented).Some?
    requires IsRun(h, cfg, Next(h, cfg, After(h, cfg, START, earlier), DoLogout(presented, now)), later)
    ensures var s := After(h, cfg, Next(h, cfg, After(h, cfg, START, earlier), DoLogout(presented, now)), later);
      !Refresh(s.t, h, cfg, presented, raw, id, when).1.Issued?
  {
    hide Injective, Ages, Inv, IsRun, After, Live, Spent, OnlyIssued;
    var s := After(h, cfg, START, earlier);
    var s1 := Next(h, cfg, s, DoLogout(presented, now));
    StartsWell(h);
    RunKeeps(h, cfg, START, earlier);
    StepKeeps(h, cfg, s, DoLogout(presented, now));
    LogoutRevokes(s.t, h, presented, now);
    FindIn(s.t, h, presented);
    NothingIsForgotten(h, cfg, s1, later);
    SpentAges(s1.t, After(h, cfg, s1, later).t, h, presented);
  }

  // ----- once a user has no live token, only a login gives one -----

  lemma NoLiveStep(h: Hash, cfg: Settings, s: System, e: Event, user: string)
    requires Injective(h) && SystemInv(h, s) && Enabled(s, e)
    requires LiveOf(s.t, user) == {} && !(e.DoLogin? && e.user == user)
    ensures LiveOf(Next(h, cfg, s, e).t, user) == {}
  {
    match e
    case DoLogin(other, raw, id, now) =>
      forall x | x in Next(h, cfg, s, e).t.tokens ensures x !in LiveOf(Next(h, cfg, s, e).t, user) {
        if x in s.t.tokens { assert x !in LiveOf(s.t, user); }
      }
    case DoRefresh(presented, raw, id, now) =>
      FreshHash(h, s, raw);
      FindIn(s.t, h, presented);
      var found := Find(s.t, h, presented);
      if found.Some? { assert found.value.id !in LiveOf(s.t, user); }
      NoLiveRefresh(s.t, h, cfg, presented, raw, id, now, user);
    case DoLogout(presented, now) =>
      FindIn(s.t, h, presented);
      forall x | x in s.t.tokens ensures x !in LiveOf(Next(h, cfg, s, e).t, user) {
        assert x !in LiveOf(s.t, user);
      }
  }

  lemma NoLiveRefresh(t: Table, h: Hash, cfg: Settings, presented: string, raw: string, id: string, now: int, user: string)
    requires Inv(t) && Fresh(t, h, raw, id) && LiveOf(t, user) == {}
    ensures LiveOf(Refresh(t, h, cfg, presented, raw, id, now).0, user) == {}
  {
    hide LinksOk, IndexAgrees;
    RefreshSucceedsIff(t, h, cfg, presented, raw, id, now);
    FindIn(t, h, presented);
    var (t', response) := Refresh(t, h, cfg, presented, raw, id, now);
    forall x | x in t'.tokens ensures x !in LiveOf(t', user) {
      if x in t.tokens { assert x !in LiveOf(t, user); }
      if response.Issued? { assert Find(t, h, presented).value.id !in LiveOf(t, user); }
    }
  }

  /** After reuse was detected for a user, no token of that user works until the next login. */
  lemma {:induction false} NoLiveUntilLogin(h: Hash, cfg: Settings, s: System, events: seq<Event>, user: string)
    requires Injective(h) && SystemInv(h, s) && IsRun(h, cfg, s, events) && LiveOf(s.t, user) == {}
    requires forall i :: 0 <= i < |events| ==> !(events[i].DoLogin? && events[i].user == user)
    ensures LiveOf(After(h, cfg, s, events).t, user) == {}
    decreases |events|
  {
    hide SystemInv, Injective, Enabled, LiveOf, Next;
    if events != [] {
      NoLiveStep(h, cfg, s, events[0], user);
      StepKeeps(h, cfg, s, events[0]);
      NoLiveUntilLogin(h, cfg, Next(h, cfg, s, events[0]), events[1..], user);
    }
  }

  // ----- the module's dictionaries as objects -----

  class RefreshTokenRecord {
    const id: string
    const userId: string
    const tokenHash: string
    const createdAt: int
    const expiresAt: int
    var revokedAt: Option<int>
    var replacedByTokenId: Option<string>

    constructor (token: Token)
      ensures Value() == token
    {
      id, userId, tokenHash := token.id, token.user, token.hash;
      createdAt, expiresAt := token.createdAt, token.expiresAt;
      revokedAt, replacedByTokenId := token.revokedAt, token.replacedBy;
    }

    ghost function Value(): Token
      reads this
    {
      Token(id, userId, tokenHash, createdAt, expiresAt, revokedAt, replacedByTokenId)
    }

    /** `_revoke_token_record`. */
    method Revoke(now: int, replacedBy: Option<string>)
      modifies this
      ensures Value() == old(Value()).(revokedAt := Some(now),
                replacedBy := if replacedBy.Some? then replacedBy else old(replacedByTokenId))
    {
      revokedAt := Some(now);
      if replacedBy.Some? {
        replacedByTokenId := replacedBy;
      }
    }
  }

  class TokenRegistry {
    const hash: Hash
    const settings: Settings
    var order: seq<string>
    var records: map<string, RefreshTokenRecord>
    var byHash: map<string, string>

    /** Keys are listed in order, and no record sits under two of them. */
    ghost predicate Valid()
      reads this
    {
      && (forall id :: id in records <==> id in order)
      && (forall a, b :: a in records && b in records && a != b ==> records[a] != records[b])
    }

    ghost function View(): Table
      reads this, records.Values
    {
      Table(order, map id | id in records :: records[id].Value(), byHash)
    }

    constructor (hash: Hash, settings: Settings)
      ensures Valid() && View() == EMPTY && this.hash == hash && this.settings == settings
    {
      this.hash, this.settings := hash, settings;
      order, records, byHash := [], map[], map[];
    }

    method IssueRefreshToken(user: string, raw: string, id: string, now: int)
      requires Valid() && id !in records
      modifies this
      ensures Valid() && records.Keys == old(records).Keys + {id}
      ensures View() == Issue(old(View()), NewToken(hash, settings, user, raw, id, now))
      ensures forall x :: x in old(records) ==> records[x] == old(records)[x]
    {
      var token := NewToken(hash, settings, user, raw, id, now);
      var rec := new RefreshTokenRecord(token);
      order := order + [id];
      records := records[id := rec];
      byHash := byHash[token.hash := id];
    }

    /** The key of the record, when there is one. */
    method FindRefreshRecord(raw: string) returns (id: Option<string>)
      requires Valid()
      ensures id == FindId(View(), hash, raw)
    {
      if raw == "" || hash(raw) !in byHash {
        return None;
      }
      var recId := byHash[hash(raw)];
      if recId == "" || recId !in records {
        return None;
      }
      id := Some(recId);
    }

    method RevokeRecord(id: string, now: int, replacedBy: Option<string>)
      requires Valid() && id in records
      modifies records[id]
      ensures View() == Revoke(old(View()), id, now, replacedBy)
    {
      records[id].Revoke(now, replacedBy);
    }

    method RevokeAllForUser(user: string, now: int)
      requires Valid()
      modifies records.Values
      ensures View() == RevokeAll(old(View()), user, now)
    {
      for i := 0 to |order|
        invariant forall k :: 0 <= k < i ==>
          records[order[k]].Value() == RevokedIf(old(records[order[k]].Value()), user, now)
        invariant forall k :: i <= k < |order| ==>
          records[order[k]].Value() == old(records[order[k]].Value())
            || records[order[k]].Value() == RevokedIf(old(records[order[k]].Value()), user, now)
      {
        var rec := records[order[i]];
        if rec.userId == user && rec.revokedAt.None? {
          rec.revokedAt := Some(now);
        }
      }
      forall id | id in records
        ensures records[id].Value() == RevokedIf(old(records[id].Value()), user, now)
      {
        assert id in order;
      }
    }

    method RefreshSession(presented: string, raw: string, id: string, now: int) returns (r: Response)
      requires Valid() && id !in records
      modifies this, records.Values
      ensures Valid()
      ensures (View(), r) == Refresh(old(View()), hash, settings, presented, raw, id, now)
    {
      if !settings.configured {
        return Misconfigured;
      }
      var found := FindRefreshRecord(presented);
      if found.None? {
        return Unauthorized;
      }
      var rec := records[found.value];
      if rec.expiresAt <= now {
        return Unauthorized;
      }
      if rec.revokedAt.Some? || rec.replacedByTokenId.Some? {
        RevokeAllForUser(rec.userId, now);
        return Unauthorized;
      }
      IssueRefreshToken(rec.userId, raw, id, now);
      RevokeRecord(found.value, now, Some(id));
      r := Issued(rec.userId, raw);
    }

    method LogoutSession(presented: string, now: int)
      requires Valid()
      modifies records.Values
      ensures View() == Logout(old(View()), hash, presented, now)
    {
      var found := FindRefreshRecord(presented);
      if found.Some? {
        RevokeRecord(found.value, now, None);
      }
    }
  }
}
