/**
 * The two Express middlewares of the backend (auth.middleware.js):
 * authenticateToken takes the token from the Authorization header and has it
 * verified; requireRole lets a request through only when the verified user
 * holds one of the allowed roles. Both are decisions on the request, so they
 * are functions returning what the middleware does: call the next handler
 * with req.user set, or answer with a status and an error body.
 * Token verification with the secret (jwt.verify) is the parameter verify.
 */
module AuthMiddleware {
  import opened Outcomes
  import Usuarios

  // ---------------------------------------------------------------- split and join

  /** String.prototype.split with a one-character separator: the pieces between separators, empty ones kept. */
  function Split(s: string, sep: char): (pieces: seq<string>)
    ensures |pieces| >= 1
    decreases |s|
  {
    if s == [] then [[]]
    else
      var rest := Split(s[1..], sep);
      if s[0] == sep then [[]] + rest
      else [[s[0]] + rest[0]] + rest[1..]
  }

  /** Array.prototype.join: the pieces with sep between neighbours; nothing for no pieces. */
  function Join(pieces: seq<string>, sep: string): string {
    if pieces == [] then []
    else if |pieces| == 1 then pieces[0]
    else pieces[0] + sep + Join(pieces[1..], sep)
  }

  /** No piece holds the separator. */
  predicate Free(pieces: seq<string>, sep: char) {
    forall i :: 0 <= i < |pieces| ==> sep !in pieces[i]
  }

  /** The pieces split returns never hold the separator. */
  lemma {:induction false} SplitPiecesFree(s: string, sep: char)
    ensures Free(Split(s, sep), sep)
    decreases |s|
  {
    if s != [] {
      var rest := Split(s[1..], sep);
      SplitPiecesFree(s[1..], sep);
      if s[0] != sep {
        var pieces := Split(s, sep);
        assert pieces[0] == [s[0]] + rest[0];
        assert forall i :: 1 <= i < |pieces| ==> pieces[i] == rest[i];
      }
    }
  }

  /** Joining the pieces with the separator gives back the string. */
  lemma {:induction false} JoinSplit(s: string, sep: char)
    ensures Join(Split(s, sep), [sep]) == s
    decreases |s|
  {
    if s != [] {
      var rest := Split(s[1..], sep);
      JoinSplit(s[1..], sep);
      if s[0] == sep {
        assert ([[]] + rest)[1..] == rest;
      } else if |rest| == 1 {
        assert Split(s, sep) == [[s[0]] + rest[0]];
      } else {
        var pieces := [[s[0]] + rest[0]] + rest[1..];
        assert pieces[1..] == rest[1..];
        assert Join(rest, [sep]) == rest[0] + [sep] + Join(rest[1..], [sep]);
      }
    }
  }

  /** Splitting a string that starts with a piece a free of the separator: a is glued to the first piece of the rest. */
  lemma {:induction false} SplitPrefix(a: string, t: string, sep: char)
    requires sep !in a
    ensures Split(a + t, sep) == [a + Split(t, sep)[0]] + Split(t, sep)[1..]
    decreases |a|
  {
    if a == [] {
      var x := Split(t, sep);
      assert a + t == t && a + x[0] == x[0];
      assert [x[0]] + x[1..] == x;
    } else {
      var x := Split(t, sep);
      var r := Split(a[1..] + t, sep);
      assert (a + t)[0] == a[0] != sep;
      assert (a + t)[1..] == a[1..] + t;
      assert Split(a + t, sep) == [[a[0]] + r[0]] + r[1..];
      SplitPrefix(a[1..], t, sep);
      assert r[0] == a[1..] + x[0] && r[1..] == x[1..];
      assert [a[0]] + (a[1..] + x[0]) == a + x[0];
    }
  }

  /** Splitting joined pieces that are free of the separator gives the pieces back. */
  lemma {:induction false} SplitJoin(pieces: seq<string>, sep: char)
    requires |pieces| >= 1 && Free(pieces, sep)
    ensures Split(Join(pieces, [sep]), sep) == pieces
    decreases |pieces|
  {
    assert sep !in pieces[0];
    if |pieces| == 1 {
      SplitPrefix(pieces[0], [], sep);
      assert Split([], sep) == [[]];
      assert pieces[0] + [] == pieces[0];
      assert pieces == [pieces[0]];
    } else {
      var tail := Join(pieces[1..], [sep]);
      SplitJoin(pieces[1..], sep);
      assert Join(pieces, [sep]) == pieces[0] + ([sep] + tail);
      SplitPrefix(pieces[0], [sep] + tail, sep);
      assert ([sep] + tail)[0] == sep && ([sep] + tail)[1..] == tail;
      var x := Split([sep] + tail, sep);
      assert x == [[]] + pieces[1..];
      assert x[0] == [] && x[1..] == pieces[1..];
      assert pieces[0] + [] == pieces[0];
      assert pieces == [pieces[0]] + pieces[1..];
    }
  }

  // ---------------------------------------------------------------- authenticateToken

  const TokenAusente := "Token de autenticação não fornecido"
  const TokenInvalido := "Token inválido ou expirado"
  const NaoAutenticado := "Usuário não autenticado"
  const AcessoNegado := "Acesso negado. Requer um dos seguintes papéis: "

  /** The decoded token payload; perfis may be missing from a token the login did not sign. */
  datatype Claims = Claims(userId: int, email: string, perfis: Option<seq<string>>)

  /** What a middleware does with a request: next() with req.user set to user, or an answer with a status and an error body. */
  datatype Reply = Next(user: Claims) | Refuse(status: int, error: string)

  /**
   * authHeader && authHeader.split(' ')[1]: the second space-separated piece
   * of a present, non-empty header, when that piece is non-empty. The first
   * piece, the scheme, is not looked at.
   */
  function Token(header: Option<string>): (t: Option<string>)
    ensures t.Some? ==> t.value != [] && ' ' !in t.value
  {
    if !Truthy(header) then None
    else
      var pieces := Split(header.value, ' ');
      SplitPiecesFree(header.value, ' ');
      if |pieces| >= 2 && pieces[1] != [] then Some(pieces[1]) else None
  }

  /** Any scheme word followed by a space and a token, with or without further pieces, yields the token. */
  lemma {:induction false} SchemeThenToken(scheme: string, token: string, rest: seq<string>)
    requires ' ' !in scheme && ' ' !in token && token != [] && Free(rest, ' ')
    ensures Token(Some(Join([scheme, token] + rest, " "))) == Some(token)
  {
    var pieces := [scheme, token] + rest;
    assert Free(pieces, ' ') by {
      forall i | 2 <= i < |pieces| ensures ' ' !in pieces[i] {
        assert pieces[i] == rest[i - 2];
      }
    }
    SplitJoin(pieces, ' ');
    assert Join(pieces, " ") != [] by {
      assert Join(pieces, " ") == scheme + " " + Join(pieces[1..], " ");
    }
  }

  /** Conversely, a header yields a token only in that shape. */
  lemma {:induction false} TokenShape(h: string)
    requires Token(Some(h)).Some?
    ensures exists scheme, rest :: ' ' !in scheme && Free(rest, ' ') && h == Join([scheme, Token(Some(h)).value] + rest, " ")
  {
    var pieces := Split(h, ' ');
    SplitPiecesFree(h, ' ');
    JoinSplit(h, ' ');
    var rest := pieces[2..];
    assert pieces == [pieces[0], pieces[1]] + rest;
    assert Free(rest, ' ') by {
      forall i | 0 <= i < |rest| ensures ' ' !in rest[i] {
        assert rest[i] == pieces[i + 2];
      }
    }
  }

  /** "Bearer TOKEN" yields TOKEN. */
  lemma {:induction false} BearerToken(token: string)
    requires ' ' !in token && token != []
    ensures Token(Some("Bearer " + token)) == Some(token)
  {
    SchemeThenToken("Bearer", token, []);
    assert Join(["Bearer", token] + [], " ") == "Bearer " + token;
  }

  /** authenticateToken: 401 without a token, 403 when verify rejects it, otherwise next() with the decoded payload. */
  function AuthenticateToken(header: Option<string>, verify: string -> Option<Claims>): (r: Reply)
    ensures r.Next? <==> Token(header).Some? && verify(Token(header).value).Some?
    ensures r.Next? ==> r.user == verify(Token(header).value).value
    ensures r.Refuse? ==> (r.status == 401 || r.status == 403)
    ensures r.Refuse? ==> (r.status == 401 <==> Token(header).None?)
  {
    match Token(header)
    case None => Refuse(401, TokenAusente)
    case Some(token) =>
      match verify(token)
      case None => Refuse(403, TokenInvalido)
      case Some(decoded) => Next(decoded)
  }

  // ---------------------------------------------------------------- requireRole

  /** req.user.perfis || []: the roles the user holds, none when the payload has none. */
  function Roles(user: Claims): seq<string> {
    if user.perfis.Some? then user.perfis.value else []
  }

  /** allowedRoles.some(role => userRoles.includes(role)) */
  function AnyAllowed(allowed: seq<string>, roles: seq<string>): (b: bool)
    ensures b <==> exists role :: role in allowed && role in roles
  {
    if allowed == [] then false
    else
      assert forall role :: role in allowed <==> role == allowed[0] || role in allowed[1..];
      allowed[0] in roles || AnyAllowed(allowed[1..], roles)
  }

  /**
   * requireRole(allowed): 401 when no user is attached; next() exactly when
   * the user holds an allowed role; otherwise 403 naming the allowed roles.
   */
  function RequireRole(allowed: seq<string>, user: Option<Claims>): (r: Reply)
    ensures user.None? ==> r == Refuse(401, NaoAutenticado)
    ensures user.Some? ==> (r.Next? <==> exists role :: role in allowed && role in Roles(user.value))
    ensures r.Next? ==> user.Some? && r.user == user.value
    ensures user.Some? && r.Refuse? ==> r == Refuse(403, AcessoNegado + Join(allowed, ", "))
  {
    if user.None? then Refuse(401, NaoAutenticado)
    else if AnyAllowed(allowed, Roles(user.value)) then Next(user.value)
    else Refuse(403, AcessoNegado + Join(allowed, ", "))
  }

  /** An empty list of allowed roles turns every user away, with an empty list in the message. */
  lemma {:induction false} NoRoleAllowed(user: Claims)
    ensures RequireRole([], Some(user)) == Refuse(403, AcessoNegado)
  {
    assert AcessoNegado + [] == AcessoNegado;
  }

  /** Allowing more roles, or holding more, never turns a user away who passed. */
  lemma {:induction false} RequireRoleMonotone(allowed: seq<string>, allowed': seq<string>, user: Claims, user': Claims)
    requires forall role :: role in allowed ==> role in allowed'
    requires forall role :: role in Roles(user) ==> role in Roles(user')
    requires RequireRole(allowed, Some(user)).Next?
    ensures RequireRole(allowed', Some(user')).Next?
  {
    var role :| role in allowed && role in Roles(user);
    assert role in allowed' && role in Roles(user');
  }

  // ---------------------------------------------------------------- a guarded route

  /** authenticateToken followed by requireRole(allowed), the order auth.middleware.js:34-38 prescribes. */
  function Guard(header: Option<string>, verify: string -> Option<Claims>, allowed: seq<string>): Reply {
    match AuthenticateToken(header, verify)
    case Refuse(status, error) => Refuse(status, error)
    case Next(user) => RequireRole(allowed, Some(user))
  }

  /**
   * Behind authenticateToken, requireRole never finds the user missing: a
   * guarded route answers 401 only for a missing token, 403 for a rejected
   * token or a missing role, and otherwise passes the decoded payload on.
   */
  lemma {:induction false} GuardOutcomes(header: Option<string>, verify: string -> Option<Claims>, allowed: seq<string>)
    ensures var r := Guard(header, verify, allowed);
      && (r.Refuse? && r.status == 401 ==> r.error == TokenAusente)
      && (r.Next? <==> Token(header).Some? && verify(Token(header).value).Some?
                       && exists role :: role in allowed && role in Roles(verify(Token(header).value).value))
      && (r.Next? ==> r.user == verify(Token(header).value).value)
  {
    var a := AuthenticateToken(header, verify);
    if a.Next? {
      assert Guard(header, verify, allowed) == RequireRole(allowed, Some(a.user));
    }
  }

  /** The payload a verified login token decodes to. */
  function Decoded(c: Usuarios.TokenClaims): Claims {
    Claims(c.userId, c.email, Some(c.perfis))
  }

  /**
   * With verify accepting what sign produced (tokens without spaces, as
   * signed tokens are), the token of a login session opens every route that
   * allows the user's role, and no route that does not.
   */
  lemma {:induction false} SessionTokenOpensItsRole(users: Usuarios.UserTable, nextUserId: int, perfis: Usuarios.PerfilTable, nextPerfilId: int,
                                                    id: int, sign: Usuarios.TokenClaims -> string, verify: string -> Option<Claims>,
                                                    allowed: seq<string>)
    requires Usuarios.StoreInvariant(users, nextUserId, perfis, nextPerfilId)
    requires id in users
    requires forall c :: ' ' !in sign(c) && sign(c) != [] && verify(sign(c)) == Some(Decoded(c))
    ensures var s := Usuarios.OpenSession(perfis, nextPerfilId, users[id], sign);
      Guard(Some("Bearer " + s.token), verify, allowed).Next? <==> Usuarios.PapelName(s.perfis[0].papel) in allowed
  {
    var s := Usuarios.OpenSession(perfis, nextPerfilId, users[id], sign);
    Usuarios.SessionCarriesTheProfileRole(users, nextUserId, perfis, nextPerfilId, id, sign);
    var c := Usuarios.TokenClaims(id, users[id].email, [Usuarios.PapelName(s.perfis[0].papel)]);
    assert s.token == sign(c);
    BearerToken(s.token);
    GuardOutcomes(Some("Bearer " + s.token), verify, allowed);
    assert Roles(Decoded(c)) == [Usuarios.PapelName(s.perfis[0].papel)];
  }
}
