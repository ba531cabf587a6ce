/**
 Refresh-token rotation: login creates a token, refresh revokes it and creates its successor in one
 transaction, revoke marks it. Calls are serialised. Ids and secrets are inputs; a stored secret is
 the secret itself, since encryption is not part of this model.
 */
module AuthService {
  import opened Wrappers
  import opened RefreshToken

  datatype Stored = Stored(userId: string, secret: seq<byte>, expiresAt: int, revoked: bool)

  /**
   The table; beside it, for the proofs only, the users of all logins so far and the login each token descends
   from.
   */
  datatype Tokens = Tokens(rows: map<Uuid, Stored>, chain: map<Uuid, nat>, logins: seq<string>)

  const NO_TOKENS := Tokens(map[], map[], [])

  const REFRESH_TOKEN_EXPIRY := 7 * 24 * 3600

  /** Credentials that do not match give no user. `fault` is a failure of any foreign call or of the transaction. */
  datatype Call =
    | Authenticate(user: Option<string>, id: Uuid, secret: seq<byte>, now: int, fault: bool)
    | Refresh(token: string, id: Uuid, secret: seq<byte>, now: int, fault: bool)
    | Revoke(token: string, fault: bool)

  /**
   The stored row that a presented token refreshes: it decodes, is known, unrevoked, not expired, and the secret
   matches.
   */
  function Accepted(ts: Tokens, token: string, now: int): Option<Uuid>
  {
    match DecodeRefreshToken(token)
    case Err(_) => None
    case Ok(t) =>
      if t.id !in ts.rows || ts.rows[t.id].revoked || now > ts.rows[t.id].expiresAt ||
        ts.rows[t.id].secret != t.secret then None
      else Some(t.id)
  }

  function Revoked(rows: map<Uuid, Stored>, id: Uuid): map<Uuid, Stored>
  {
    if id in rows then rows[id := rows[id].(revoked := true)] else rows
  }

  function NewToken(userId: string, secret: seq<byte>, now: int): Stored
  {
    Stored(userId, secret, now + REFRESH_TOKEN_EXPIRY, false)
  }

  /** A login starts a chain of its own. */
  function LoggedIn(ts: Tokens, user: string, id: Uuid, secret: seq<byte>, now: int): Tokens
  {
    Tokens(ts.rows[id := NewToken(user, secret, now)], ts.chain[id := |ts.logins|], ts.logins + [user])
  }

  /** Both writes of a rotation: the old token is revoked, its successor joins the chain. */
  function Rotated(ts: Tokens, spent: Uuid, id: Uuid, secret: seq<byte>, now: int): Tokens
    requires spent in ts.rows && spent in ts.chain
  {
    ts.(rows := Revoked(ts.rows, spent)[id := NewToken(ts.rows[spent].userId, secret, now)],
        chain := ts.chain[id := ts.chain[spent]])
  }

  /** A duplicate id violates the primary key, which undoes the whole transaction. */
  function Next(ts: Tokens, c: Call): Tokens
  {
    match c
    case Authenticate(user, id, secret, now, fault) =>
      if user.None? || fault || id in ts.rows then ts
      else LoggedIn(ts, user.value, id, secret, now)
    case Refresh(token, id, secret, now, fault) =>
      (match Accepted(ts, token, now)
       case None => ts
       case Some(spent) => if fault || id in ts.rows || spent !in ts.chain then ts
         else Rotated(ts, spent, id, secret, now))
    case Revoke(token, fault) =>
      match DecodeRefreshToken(token)
      case Err(_) => ts
      case Ok(t) => if fault then ts else ts.(rows := Revoked(ts.rows, t.id))
  }

  function Run(ts: Tokens, calls: seq<Call>): Tokens
  {
    if |calls| == 0 then ts else Next(Run(ts, calls[..|calls| - 1]), calls[|calls| - 1])
  }

  // ------------------------------------------------------------------ one live token per chain

  predicate Live(ts: Tokens, id: Uuid)
  {
    id in ts.rows && !ts.rows[id].revoked
  }

  ghost predicate OneLivePerChain(ts: Tokens)
  {
    && ts.rows.Keys == ts.chain.Keys
    && (forall a, b :: Live(ts, a) && Live(ts, b) && ts.chain[a] == ts.chain[b] ==> a == b)
  }

  /** Every token belongs to the user who logged in at the head of its chain. */
  ghost predicate ChainsKeepTheirUser(ts: Tokens)
  {
    && ts.rows.Keys == ts.chain.Keys
    && (forall a :: a in ts.rows ==> ts.chain[a] < |ts.logins| && ts.rows[a].userId == ts.logins[ts.chain[a]])
  }

  /** The spent token is revoked in the same step that adds its successor to the chain. */
  lemma RotationKeepsOneLive(ts: Tokens, spent: Uuid, id: Uuid, secret: seq<byte>, now: int)
    requires OneLivePerChain(ts) && Live(ts, spent) && id !in ts.rows
    ensures OneLivePerChain(Rotated(ts, spent, id, secret, now))
  {
    var ts' := Rotated(ts, spent, id, secret, now);
    forall a, b | Live(ts', a) && Live(ts', b) && ts'.chain[a] == ts'.chain[b] ensures a == b {
      assert a != id ==> Live(ts, a);
      assert b != id ==> Live(ts, b);
    }
  }

  /** The chain number of a new login is used by no token yet. */
  lemma LoginKeepsOneLive(ts: Tokens, user: string, id: Uuid, secret: seq<byte>, now: int)
    requires OneLivePerChain(ts) && ChainsKeepTheirUser(ts) && id !in ts.rows
    ensures OneLivePerChain(LoggedIn(ts, user, id, secret, now))
  {
    var ts' := LoggedIn(ts, user, id, secret, now);
    forall a, b | Live(ts', a) && Live(ts', b) && ts'.chain[a] == ts'.chain[b] ensures a == b {
      assert a != id ==> Live(ts, a) && ts.chain[a] < |ts.logins|;
      assert b != id ==> Live(ts, b) && ts.chain[b] < |ts.logins|;
    }
  }

  lemma NextKeepsOneLive(ts: Tokens, c: Call)
    requires OneLivePerChain(ts) && ChainsKeepTheirUser(ts)
    ensures OneLivePerChain(Next(ts, c))
  {
    match c
    case Authenticate(user, id, secret, now, fault) =>
      if user.Some? && !fault && id !in ts.rows {
        LoginKeepsOneLive(ts, user.value, id, secret, now);
      }
    case Refresh(token, id, secret, now, fault) =>
      var spent := Accepted(ts, token, now);
      if spent.Some? && !fault && id !in ts.rows {
        RotationKeepsOneLive(ts, spent.value, id, secret, now);
      }
    case Revoke(token, fault) =>
      assert forall a :: Live(Next(ts, c), a) ==> Live(ts, a);
  }

  lemma RotationKeepsUsers(ts: Tokens, spent: Uuid, id: Uuid, secret: seq<byte>, now: int)
    requires ChainsKeepTheirUser(ts) && spent in ts.rows
    ensures ChainsKeepTheirUser(Rotated(ts, spent, id, secret, now))
  {
  }

  lemma LoginKeepsUsers(ts: Tokens, user: string, id: Uuid, secret: seq<byte>, now: int)
    requires ChainsKeepTheirUser(ts)
    ensures ChainsKeepTheirUser(LoggedIn(ts, user, id, secret, now))
  {
  }

  lemma NextKeepsUsers(ts: Tokens, c: Call)
    requires ChainsKeepTheirUser(ts)
    ensures ChainsKeepTheirUser(Next(ts, c))
  {
    match c
    case Authenticate(user, id, secret, now, fault) =>
      if user.Some? {
        LoginKeepsUsers(ts, user.value, id, secret, now);
      }
    case Refresh(token, id, secret, now, fault) =>
      if Accepted(ts, token, now).Some? {
        RotationKeepsUsers(ts, Accepted(ts, token, now).value, id, secret, now);
      }
    case Revoke(token, fault) =>
  }

  /**
   In every run of serialised calls each login chain has at most one unrevoked token, and all its tokens belong
   to one user.
   */
  lemma {:induction false} EveryRunRotates(calls: seq<Call>)
    ensures OneLivePerChain(Run(NO_TOKENS, calls)) && ChainsKeepTheirUser(Run(NO_TOKENS, calls))
    decreases |calls|
  {
    if |calls| > 0 {
      EveryRunRotates(calls[..|calls| - 1]);
      NextKeepsUsers(Run(NO_TOKENS, calls[..|calls| - 1]), calls[|calls| - 1]);
      NextKeepsOneLive(Run(NO_TOKENS, calls[..|calls| - 1]), calls[|calls| - 1]);
    }
  }

  lemma OneCallKeepsRow(ts: Tokens, c: Call, id: Uuid)
    requires id in ts.rows
    ensures var ts' := Next(ts, c);
      id in ts'.rows && (ts'.rows[id] == ts.rows[id] || ts'.rows[id] == ts.rows[id].(revoked := true))
  {
  }

  /** Rows are never removed; revocation is permanent, and nothing else of a row ever changes. */
  lemma {:induction false} RevocationIsPermanent(ts: Tokens, calls: seq<Call>, id: Uuid)
    requires id in ts.rows
    ensures var ts' := Run(ts, calls);
      id in ts'.rows && (ts.rows[id].revoked ==> ts'.rows[id].revoked)
      && ts'.rows[id] == ts.rows[id].(revoked := ts'.rows[id].revoked)
    decreases |calls|
  {
    if |calls| > 0 {
      RevocationIsPermanent(ts, calls[..|calls| - 1], id);
      OneCallKeepsRow(Run(ts, calls[..|calls| - 1]), calls[|calls| - 1], id);
    }
  }

  lemma RevokedIsNotAccepted(ts: Tokens, token: string, now: int, later: int, ts': Tokens)
    requires Accepted(ts, token, now).Some?
    requires var id := Accepted(ts, token, now).value; id in ts'.rows && ts'.rows[id].revoked
    ensures Accepted(ts', token, later) == None
  {
  }

  /** A token that has been exchanged once is never accepted again, whatever calls follow. */
  lemma ExchangedTokenIsDead(before: seq<Call>, token: string, id: Uuid, secret: seq<byte>, now: int,
      after: seq<Call>, later: int)
    requires Next(Run(NO_TOKENS, before), Refresh(token, id, secret, now, false)) != Run(NO_TOKENS, before)
    ensures var exchanged := Next(Run(NO_TOKENS, before), Refresh(token, id, secret, now, false));
      Accepted(Run(exchanged, after), token, later) == None
  {
    var ts := Run(NO_TOKENS, before);
    var spent := Accepted(ts, token, now).value;
    var ts' := Rotated(ts, spent, id, secret, now);
    assert ts' == Next(ts, Refresh(token, id, secret, now, false));
    assert spent != id && ts'.rows[spent].revoked;
    RevocationIsPermanent(ts', after, spent);
    RevokedIsNotAccepted(ts, token, now, later, Run(ts', after));
  }

  /** The token text that a refresh hands out is accepted next exactly until it expires, if its secret is not empty. */
  lemma NewTokenIsAccepted(before: seq<Call>, token: string, id: Uuid, secret: seq<byte>, now: int, later: int)
    requires var ts := Run(NO_TOKENS, before); Next(ts, Refresh(token, id, secret, now, false)) != ts
    ensures var ts' := Next(Run(NO_TOKENS, before), Refresh(token, id, secret, now, false));
      Accepted(ts', EncodeRefreshToken(Token(id, secret)), later) == Some(id)
      <==> secret != [] && later <= now + 604_800
  {
    TokenRoundTripIff(Token(id, secret));
  }

  /** So is the token text that a login hands out; it lives for seven days. */
  lemma LoginTokenIsAccepted(ts: Tokens, user: string, id: Uuid, secret: seq<byte>, now: int, later: int)
    requires id !in ts.rows
    ensures var ts' := Next(ts, Authenticate(Some(user), id, secret, now, false));
      && id in ts'.rows && ts'.rows[id].userId == user
      && ts'.logins == ts.logins + [user] && ts'.chain == ts.chain[id := |ts.logins|]
      && (Accepted(ts', EncodeRefreshToken(Token(id, secret)), later) == Some(id)
          <==> secret != [] && later <= now + 604_800)
  {
    TokenRoundTripIff(Token(id, secret));
  }

  /** Logging out: a known token is never accepted again after its revocation, and no other row changes with it. */
  lemma RevokedTokenIsDead(ts: Tokens, token: string, after: seq<Call>, later: int)
    requires DecodeRefreshToken(token).Ok? && DecodeRefreshToken(token).value.id in ts.rows
    ensures var ts' := Next(ts, Revoke(token, false));
      && ts'.rows.Keys == ts.rows.Keys
      && (forall id :: id in ts.rows && id != DecodeRefreshToken(token).value.id ==> ts'.rows[id] == ts.rows[id])
      && Accepted(Run(ts', after), token, later) == None
  {
    RevocationIsPermanent(Next(ts, Revoke(token, false)), after, DecodeRefreshToken(token).value.id);
  }

  /** A refresh revokes the token it was given and no other; its successor has the same user and login chain. */
  lemma RefreshExchanges(ts: Tokens, token: string, id: Uuid, secret: seq<byte>, now: int)
    requires ts.rows.Keys == ts.chain.Keys && Accepted(ts, token, now).Some? && id !in ts.rows
    ensures var spent, ts' := Accepted(ts, token, now).value, Next(ts, Refresh(token, id, secret, now, false));
      && ts'.rows == ts.rows[spent := ts.rows[spent].(revoked := true)][
           id := Stored(ts.rows[spent].userId, secret, now + 604_800, false)]
      && ts'.chain == ts.chain[id := ts.chain[spent]] && ts'.logins == ts.logins
  {
  }

  // ------------------------------------------------------------------ the service

  class Service {
    var tokens: Tokens

    constructor ()
      ensures tokens == NO_TOKENS
    {
      tokens := NO_TOKENS;
    }

    method Login(user: Option<string>, id: Uuid, secret: seq<byte>, now: int, fault: bool) returns (r: Result<string>)
      modifies this
      ensures tokens == Next(old(tokens), Authenticate(user, id, secret, now, fault))
      ensures r.Ok? <==> user.Some? && !fault && id !in old(tokens).rows
      ensures r.Ok? ==> r.value == EncodeRefreshToken(Token(id, secret))
      ensures r.Ok? ==> tokens.rows == old(tokens).rows[id := Stored(user.value, secret, now + 604_800, false)]
      ensures r.Err? ==> tokens == old(tokens)
    {
      if user.None? { return Err("invalid credentials"); }
      var tok := Stored(user.value, secret, now + REFRESH_TOKEN_EXPIRY, false);
      if fault || id in tokens.rows { return Err("create refresh token"); }
      tokens := Tokens(tokens.rows[id := tok], tokens.chain[id := |tokens.logins|], tokens.logins + [user.value]);
      r := Ok(EncodeRefreshToken(Token(id, secret)));
    }

    /** The checks of Refresh before it opens its transaction. */
    method Check(token: string, now: int) returns (r: Result<Uuid>)
      ensures r.Ok? <==> Accepted(tokens, token, now).Some?
      ensures r.Ok? ==> Accepted(tokens, token, now) == Some(r.value)
      ensures var t := DecodeRefreshToken(token);
        && (r.Ok? <==>
            && t.Ok? && t.value.id in tokens.rows && !tokens.rows[t.value.id].revoked
            && now <= tokens.rows[t.value.id].expiresAt && tokens.rows[t.value.id].secret == t.value.secret)
        && (r.Ok? ==> r.value == t.value.id)
    {
      var decoded := DecodeRefreshToken(token);
      if decoded.Err? { return Err("refresh token invalid"); }
      var tokenId := decoded.value.id;
      if tokenId !in tokens.rows { return Err("refresh token invalid"); }
      var row := tokens.rows[tokenId];
      if row.revoked { return Err("refresh token invalid"); }
      if now > row.expiresAt { return Err("refresh token invalid"); }
      if row.secret != decoded.value.secret { return Err("refresh token invalid"); }
      r := Ok(tokenId);
    }

    method RefreshToken(token: string, id: Uuid, secret: seq<byte>, now: int, fault: bool) returns (r: Result<string>)
      requires tokens.rows.Keys == tokens.chain.Keys
      modifies this
      ensures tokens == Next(old(tokens), Refresh(token, id, secret, now, fault))
      ensures r.Ok? <==> Accepted(old(tokens), token, now).Some? && !fault && id !in old(tokens).rows
      ensures r.Ok? ==> r.value == EncodeRefreshToken(Token(id, secret))
      ensures r.Ok? ==>
        var rows, spent := old(tokens).rows, DecodeRefreshToken(token).value.id;
        && spent in rows
        && tokens.rows == rows[spent := rows[spent].(revoked := true)][
             id := Stored(rows[spent].userId, secret, now + 604_800, false)]
      ensures r.Err? ==> tokens == old(tokens)
    {
      var checked := Check(token, now);
      if checked.Err? { return Err("refresh token invalid"); }
      var tokenId := checked.value;
      var row := tokens.rows[tokenId];
      var rows := tokens.rows[tokenId := row.(revoked := true)];
      if fault || id in rows { return Err("rotate refresh token"); }
      var newTok := Stored(row.userId, secret, now + REFRESH_TOKEN_EXPIRY, false);
      tokens := tokens.(rows := rows[id := newTok], chain := tokens.chain[id := tokens.chain[tokenId]]);
      r := Ok(EncodeRefreshToken(Token(id, secret)));
    }

    method RevokeToken(token: string, fault: bool) returns (ok: bool)
      modifies this
      ensures tokens == Next(old(tokens), Revoke(token, fault))
      ensures ok <==> DecodeRefreshToken(token).Ok? && !fault
      ensures !ok ==> tokens == old(tokens)
      ensures ok ==>
        var rows, id := old(tokens).rows, DecodeRefreshToken(token).value.id;
        tokens.rows == if id in rows then rows[id := rows[id].(revoked := true)] else rows
    {
      var decoded := DecodeRefreshToken(token);
      if decoded.Err? || fault { return false; }
      var id := decoded.value.id;
      if id in tokens.rows {
        tokens := tokens.(rows := tokens.rows[id := tokens.rows[id].(revoked := true)]);
      }
      ok := true;
    }
  }
}
