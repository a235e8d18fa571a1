/**
 * The user service (usuario.service.js): registration of a user together with
 * its profile, login with the failed-attempt lockout, and the listing of
 * active users. The store is two tables held by UsuarioService; the team
 * table, the password hasher and comparer, the token signer and the clock
 * are parameters.
 */
module Usuarios {
  import opened Outcomes
  import opened Text
  import opened Validators
  import opened Sequences

  // ================================================================ data model

  datatype Papel = ADM | ORG | TEC

  function PapelName(p: Papel): string {
    match p
    case ADM => "ADM"
    case ORG => "ORG"
    case TEC => "TEC"
  }

  /** The papel a payload names: one of the three names, spelled exactly. */
  function ParsePapel(s: string): Option<Papel> {
    if s == "ADM" then Some(ADM)
    else if s == "ORG" then Some(ORG)
    else if s == "TEC" then Some(TEC)
    else None
  }

  lemma {:induction false} ParsePapelNames(s: string, p: Papel)
    ensures ParsePapel(s) == Some(p) <==> PapelName(p) == s
  {
  }

  /** The stored status, 'ativo' or 'inativo'. */
  datatype UserStatus = Ativo | Inativo

  datatype Usuario = Usuario(
    id: int, nome: string, email: string, senhaHash: string, status: UserStatus,
    failedAttempts: nat, lockedUntil: Option<int>, createdAt: int)

  datatype Perfil = Perfil(
    id: int, usuarioId: int, papel: Papel,
    organizacaoId: Option<int>, equipeId: Option<int>, createdAt: int)

  type UserTable = map<int, Usuario>
  type PerfilTable = map<int, Perfil>

  /** The teams the store knows: team id to the organisation it belongs to, if any. */
  type Equipes = map<int, Option<int>>

  // ---------------------------------------------------------------- errors

  /** The errors create and login end with. */
  datatype Erro =
    | NomeObrigatorio | EmailInvalido | SenhaInvalida | PapelInvalido | RoleObrigatorio | EmailDuplicado
    | ApenasAdmCriaOrg | EquipeObrigatoria | OrganizacaoDoCriador | EquipeInexistente | OrganizacaoDivergente
    | EmailUnico
    | CredenciaisMalFormadas | CredenciaisRecusadas | ContaBloqueada

  const MensagemCredenciais := "Email ou senha inválidos"

  /**
   * The status code of each error. EmailUnico is the store's unique index on
   * the user e-mail refusing the insert; it carries no status of its own.
   * Every error is a client error.
   */
  function StatusCode(e: Erro): (code: int)
    ensures 400 <= code < 500
  {
    match e
    case NomeObrigatorio => 400
    case EmailInvalido => 400
    case SenhaInvalida => 400
    case PapelInvalido => 400
    case RoleObrigatorio => 401
    case EmailDuplicado => 409
    case ApenasAdmCriaOrg => 403
    case EquipeObrigatoria => 400
    case OrganizacaoDoCriador => 400
    case EquipeInexistente => 400
    case OrganizacaoDivergente => 403
    case EmailUnico => 400
    case CredenciaisMalFormadas => 400
    case CredenciaisRecusadas => 401
    case ContaBloqueada => 403
  }

  function Message(e: Erro): string {
    match e
    case NomeObrigatorio => "Nome completo é obrigatório"
    case EmailInvalido => "Email inválido"
    case SenhaInvalida => "Senha inválida. Mínimo 8 caracteres, pelo menos letras e números"
    case PapelInvalido => "Papel inválido. Deve ser ADM, ORG ou TEC"
    case RoleObrigatorio => "Role do solicitante é obrigatório no corpo da requisição (requester.role)"
    case EmailDuplicado => "Email já cadastrado"
    case ApenasAdmCriaOrg => "Apenas Administradores podem criar usuários com papel ORG"
    case EquipeObrigatoria => "Equipe é obrigatória para papel TEC"
    case OrganizacaoDoCriador => "Informar organizacao do criador no corpo da requisição (requester.organizacaoId)"
    case EquipeInexistente => "Equipe informada não existe"
    case OrganizacaoDivergente => "Organização do criador não corresponde à organização da equipe"
    case CredenciaisMalFormadas => MensagemCredenciais
    case CredenciaisRecusadas => MensagemCredenciais
    case ContaBloqueada => "Conta bloqueada devido a múltiplas tentativas. Tente mais tarde."
    case EmailUnico => ""
  }

  /** The errors login reports. */
  predicate LoginErro(e: Erro) {
    e == CredenciaisMalFormadas || e == CredenciaisRecusadas || e == ContaBloqueada
  }

  /** Each error as it reaches the controllers. */
  function Thrown(e: Erro): Failure {
    if e == EmailUnico then UniqueConstraint("email") else ServiceError(Message(e), StatusCode(e))
  }

  /** The controllers answer each error with its status code. */
  lemma {:induction false} StatusCodeAnswered(e: Erro)
    ensures HttpStatus(Thrown(e)) == StatusCode(e)
  {
  }

  /** A login refused for its shape and one refused for unknown e-mail or wrong password read the same. */
  lemma {:induction false} CredentialMessagesAlike()
    ensures Thrown(CredenciaisMalFormadas).message == Thrown(CredenciaisRecusadas).message == "Email ou senha inválidos"
    ensures StatusCode(CredenciaisMalFormadas) == 400 && StatusCode(CredenciaisRecusadas) == 401
    ensures StatusCode(EmailUnico) == 400
  {
  }

  // ================================================================ store invariant

  predicate EmailTaken(users: UserTable, email: string) {
    exists id :: id in users && users[id].email == email
  }

  predicate UsersConsistent(users: UserTable, nextUserId: int) {
    && 1 <= nextUserId
    && forall id :: id in users ==> 1 <= id < nextUserId && users[id].id == id
  }

  predicate PerfisConsistent(perfis: PerfilTable, nextPerfilId: int) {
    && 1 <= nextPerfilId
    && forall id :: id in perfis ==> 1 <= id < nextPerfilId && perfis[id].id == id
  }

  /** The store's unique index on the e-mail column. */
  predicate UniqueEmails(users: UserTable) {
    forall a, b :: a in users && b in users && a != b ==> users[a].email != users[b].email
  }

  /** Every stored e-mail was lower-cased on insert. */
  predicate LowerEmails(users: UserTable) {
    forall id :: id in users ==> NoUpper(users[id].email)
  }

  /** Each profile belongs to a stored user, and each user has exactly one profile. */
  predicate OneProfileEach(users: UserTable, perfis: PerfilTable) {
    && (forall pid :: pid in perfis ==> perfis[pid].usuarioId in users)
    && (forall a, b :: a in perfis && b in perfis && a != b ==> perfis[a].usuarioId != perfis[b].usuarioId)
    && (forall uid :: uid in users ==> exists pid :: pid in perfis && perfis[pid].usuarioId == uid)
  }

  /** A TEC profile always names its team. */
  predicate TecHasEquipe(perfis: PerfilTable) {
    forall pid :: pid in perfis && perfis[pid].papel == TEC ==> Given(perfis[pid].equipeId)
  }

  predicate StoreInvariant(users: UserTable, nextUserId: int, perfis: PerfilTable, nextPerfilId: int) {
    && UsersConsistent(users, nextUserId)
    && PerfisConsistent(perfis, nextPerfilId)
    && UniqueEmails(users)
    && LowerEmails(users)
    && OneProfileEach(users, perfis)
    && TecHasEquipe(perfis)
  }

  // ================================================================ create

  /** The payload of create; an absent text field is the empty string. */
  datatype NovoUsuario = NovoUsuario(
    nome: string, email: string, senha: string, papel: string,
    organizacaoId: Option<int>, equipeId: Option<int>)

  /** Who asks for the creation; an absent role is the empty string. */
  datatype Requester = Requester(role: string, organizacaoId: Option<int>)

  /** The user as create and login return it: every column but the hash. */
  datatype UsuarioView = UsuarioView(id: int, nome: string, email: string, status: UserStatus, createdAt: int)

  datatype PerfilView = PerfilView(id: int, papel: Papel, organizacaoId: Option<int>, equipeId: Option<int>)

  datatype Registro = Registro(usuario: UsuarioView, perfil: PerfilView)

  function ViewOf(u: Usuario): UsuarioView {
    UsuarioView(u.id, u.nome, u.email, u.status, u.createdAt)
  }

  function PerfilViewOf(q: Perfil): PerfilView {
    PerfilView(q.id, q.papel, q.organizacaoId, q.equipeId)
  }

  /** Every field has the shape create demands. */
  predicate ShapeOk(p: NovoUsuario) {
    && Trim(p.nome) != []
    && IsEmail(p.email)
    && IsPassword(p.senha)
    && ParsePapel(p.papel).Some?
  }

  /**
   * The business rules on who may create what: only ADM creates ORG users, a
   * TEC user needs a team, and an ORG requester creating a TEC user must name
   * its own organisation, which must own the existing team.
   */
  predicate Allowed(p: NovoUsuario, req: Requester, equipes: Equipes) {
    && (ParsePapel(p.papel) == Some(ORG) ==> req.role == "ADM")
    && (ParsePapel(p.papel) == Some(TEC) ==> Given(p.equipeId))
    && (ParsePapel(p.papel) == Some(TEC) && req.role == "ORG" ==>
          && Given(req.organizacaoId)
          && p.equipeId.value in equipes
          && equipes[p.equipeId.value] == Some(req.organizacaoId.value))
  }

  /** The first field check of create that fails: nome, e-mail, password, papel, each a 400. */
  function FieldError(p: NovoUsuario): (r: Option<Erro>)
    ensures r.None? <==> ShapeOk(p)
    ensures r.Some? ==> StatusCode(r.value) == 400 && r.value != EmailUnico
  {
    if Trim(p.nome) == [] then Some(NomeObrigatorio)
    else if !IsEmail(p.email) then Some(EmailInvalido)
    else if !IsPassword(p.senha) then Some(SenhaInvalida)
    else if ParsePapel(p.papel).None? then Some(PapelInvalido)
    else None
  }

  /** The first business rule of create that the request breaks, each a 400 or a 403. */
  function RuleError(p: NovoUsuario, req: Requester, equipes: Equipes): (r: Option<Erro>)
    requires ParsePapel(p.papel).Some?
    ensures r.None? <==> Allowed(p, req, equipes)
    ensures r.Some? ==> (StatusCode(r.value) == 400 || StatusCode(r.value) == 403) && r.value != EmailUnico
  {
    var papel := ParsePapel(p.papel).value;
    if papel == ORG && req.role != "ADM" then Some(ApenasAdmCriaOrg)
    else if papel == TEC && !Given(p.equipeId) then Some(EquipeObrigatoria)
    else if papel == TEC && req.role == "ORG" then
      if !Given(req.organizacaoId) then Some(OrganizacaoDoCriador)
      else if p.equipeId.value !in equipes then Some(EquipeInexistente)
      else if equipes[p.equipeId.value] != Some(req.organizacaoId.value) then Some(OrganizacaoDivergente)
      else None
    else None
  }

  /**
   * The first check of create that fails before the transaction, in the order
   * the service runs them: the fields, the requester role, the e-mail as
   * sent, the business rules.
   */
  function CreateCheck(users: UserTable, p: NovoUsuario, req: Requester, equipes: Equipes): (r: Option<Erro>)
    ensures r.None? <==> ShapeOk(p) && req.role != [] && !EmailTaken(users, p.email) && Allowed(p, req, equipes)
    ensures r.Some? ==> r.value != EmailUnico
    ensures r.Some? && !ShapeOk(p) ==> StatusCode(r.value) == 400
    ensures r.Some? ==> (StatusCode(r.value) == 401 <==> ShapeOk(p) && req.role == [])
    ensures r.Some? ==> (StatusCode(r.value) == 409 <==> ShapeOk(p) && req.role != [] && EmailTaken(users, p.email))
  {
    match FieldError(p)
    case Some(e) => Some(e)
    case None =>
      if req.role == [] then Some(RoleObrigatorio)
      else if EmailTaken(users, p.email) then Some(EmailDuplicado)
      else RuleError(p, req, equipes)
  }

  /** The e-mail the user row is stored with. */
  function StoredEmail(p: NovoUsuario): string {
    Trim(ToLower(p.email))
  }

  /** The user row create inserts: trimmed nome, normalised e-mail, status ativo, no failed attempt, no lock. */
  function NewUsuario(id: int, p: NovoUsuario, senhaHash: string, now: int): Usuario {
    Usuario(id, Trim(p.nome), StoredEmail(p), senhaHash, Ativo, 0, None, now)
  }

  /** The profile row create inserts: organizacaoId and equipeId only when given. */
  function NewPerfil(id: int, usuarioId: int, papel: Papel, p: NovoUsuario, now: int): Perfil {
    Perfil(id, usuarioId, papel,
           if Given(p.organizacaoId) then p.organizacaoId else None,
           if Given(p.equipeId) then p.equipeId else None, now)
  }

  /** What create returns once both rows are stored: the user without its hash, and the profile. */
  function Registered(userId: int, perfilId: int, p: NovoUsuario, senhaHash: string, now: int): Registro
    requires ParsePapel(p.papel).Some?
  {
    Registro(ViewOf(NewUsuario(userId, p, senhaHash, now)),
             PerfilViewOf(NewPerfil(perfilId, userId, ParsePapel(p.papel).value, p, now)))
  }

  /**
   * The outcome of create on the store, when the store would hand out userId
   * and perfilId, senhaHash is what the hasher produced for the password, and
   * now is the time of the call.
   */
  function CreateResult(users: UserTable, userId: int, perfilId: int, p: NovoUsuario, req: Requester,
                        equipes: Equipes, senhaHash: string, now: int): (r: Result<Registro, Erro>)
    ensures r.Ok? <==> CreateCheck(users, p, req, equipes).None? && !EmailTaken(users, StoredEmail(p))
    ensures r.Ok? ==> ShapeOk(p) && req.role != [] && Allowed(p, req, equipes)
  {
    match CreateCheck(users, p, req, equipes)
    case Some(e) => Err(e)
    case None =>
      if EmailTaken(users, StoredEmail(p)) then Err(EmailUnico)
      else Ok(Registered(userId, perfilId, p, senhaHash, now))
  }

  /**
   * A field of the wrong shape is a 400, a missing requester role a 401, and
   * 409 means exactly that the e-mail as sent is registered.
   */
  lemma {:induction false} CreateErrorStatuses(users: UserTable, userId: int, perfilId: int, p: NovoUsuario, req: Requester,
                            equipes: Equipes, senhaHash: string, now: int)
    ensures var r := CreateResult(users, userId, perfilId, p, req, equipes, senhaHash, now);
      && (r.Err? && !ShapeOk(p) ==> StatusCode(r.error) == 400)
      && (r.Err? && StatusCode(r.error) == 401 <==> ShapeOk(p) && req.role == [])
      && (r.Err? && StatusCode(r.error) == 409 <==> ShapeOk(p) && req.role != [] && EmailTaken(users, p.email))
  {
    var r := CreateResult(users, userId, perfilId, p, req, equipes, senhaHash, now);
    var c := CreateCheck(users, p, req, equipes);
    if c.Some? {
      assert r == Err(c.value);
    } else {
      assert ShapeOk(p) && req.role != [] && !EmailTaken(users, p.email);
      assert r.Err? ==> r.error == EmailUnico;
    }
  }

  /**
   * A created user is active, has the trimmed nome and the lower-cased,
   * trimmed e-mail; its profile has the requested papel and carries
   * organizacaoId and equipeId exactly when they were given.
   */
  lemma {:induction false} CreateStoresNormalisedUser(users: UserTable, userId: int, perfilId: int, p: NovoUsuario, req: Requester,
                                   equipes: Equipes, senhaHash: string, now: int)
    requires CreateResult(users, userId, perfilId, p, req, equipes, senhaHash, now).Ok?
    ensures var g := CreateResult(users, userId, perfilId, p, req, equipes, senhaHash, now).value;
      && g.usuario == UsuarioView(userId, Trim(p.nome), Trim(ToLower(p.email)), Ativo, now)
      && NoUpper(g.usuario.email) && IsEmail(g.usuario.email)
      && g.perfil.id == perfilId && PapelName(g.perfil.papel) == p.papel
      && (g.perfil.equipeId.Some? <==> Given(p.equipeId))
      && (g.perfil.organizacaoId.Some? <==> Given(p.organizacaoId))
      && (g.perfil.papel == TEC ==> g.perfil.equipeId.Some?)
  {
    assert CreateCheck(users, p, req, equipes).None?;
    var papel := ParsePapel(p.papel).value;
    assert PapelName(papel) == p.papel;
    StoredEmailNormalised(p);
  }

  /** The requester role is checked only after every field, and before the e-mail. */
  lemma {:induction false} CreateRoleCheckedAfterFields(users: UserTable, userId: int, perfilId: int, p: NovoUsuario, req: Requester,
                                     equipes: Equipes, senhaHash: string, now: int)
    requires ShapeOk(p) && req.role == []
    ensures CreateResult(users, userId, perfilId, p, req, equipes, senhaHash, now) == Err(RoleObrigatorio)
  {
  }

  /**
   * A registered e-mail is reported as a conflict before any business rule is
   * looked at: even a request the rules would forbid gets 409.
   */
  lemma {:induction false} CreateConflictBeforeRules(users: UserTable, userId: int, perfilId: int, p: NovoUsuario, req: Requester,
                                  equipes: Equipes, senhaHash: string, now: int)
    requires ShapeOk(p) && req.role != [] && EmailTaken(users, p.email)
    ensures CreateResult(users, userId, perfilId, p, req, equipes, senhaHash, now) == Err(EmailDuplicado)
  {
  }

  /**
   * The uniqueness pre-check looks the e-mail up as sent, but the row is
   * stored lower-cased. So an e-mail that differs from a registered one only
   * in letter case passes the pre-check, is never answered with 409, and is
   * refused by the store's unique index instead.
   */
  lemma {:induction false} CaseVariantEmailReachesStore(users: UserTable, userId: int, perfilId: int, p: NovoUsuario, req: Requester,
                                     equipes: Equipes, senhaHash: string, now: int)
    requires LowerEmails(users)
    requires !NoUpper(p.email)
    requires EmailTaken(users, StoredEmail(p))
    ensures !EmailTaken(users, p.email)
    ensures var r := CreateResult(users, userId, perfilId, p, req, equipes, senhaHash, now);
      && r.Err? && r != Err(EmailDuplicado)
      && (ShapeOk(p) && req.role != [] && Allowed(p, req, equipes) ==> r == Err(EmailUnico))
  {
  }

  /** A new user's e-mail is stored lower-case and in the e-mail shape. */
  lemma {:induction false} StoredEmailNormalised(p: NovoUsuario)
    requires IsEmail(p.email)
    ensures NoUpper(StoredEmail(p)) && IsEmail(StoredEmail(p))
  {
    EmailLowerCase(p.email);
    EmailHasNoSpace(ToLower(p.email));
    ToLowerNoUpper(p.email);
  }

  /** Inserting a user and its profile under fresh ids keeps the store invariant when the e-mail is free. */
  lemma {:induction false} RegisterKeepsInvariant(users: UserTable, nextUserId: int, perfis: PerfilTable, nextPerfilId: int, u: Usuario, q: Perfil)
    requires StoreInvariant(users, nextUserId, perfis, nextPerfilId)
    requires u.id == nextUserId && q.id == nextPerfilId && q.usuarioId == nextUserId
    requires !EmailTaken(users, u.email) && NoUpper(u.email)
    requires q.papel == TEC ==> Given(q.equipeId)
    ensures StoreInvariant(users[nextUserId := u], nextUserId + 1, perfis[nextPerfilId := q], nextPerfilId + 1)
  {
    var users', perfis' := users[nextUserId := u], perfis[nextPerfilId := q];
    assert nextUserId !in users && nextPerfilId !in perfis;
    assert UniqueEmails(users') by {
      forall a, b | a in users' && b in users' && a != b
        ensures users'[a].email != users'[b].email
      {
        if a == nextUserId {
          assert users[b].email != u.email;
        } else if b == nextUserId {
          assert users[a].email != u.email;
        }
      }
    }
    assert OneProfileEach(users', perfis') by {
      forall a, b | a in perfis' && b in perfis' && a != b
        ensures perfis'[a].usuarioId != perfis'[b].usuarioId
      {
        if a == nextPerfilId {
          assert perfis[b].usuarioId in users;
        } else if b == nextPerfilId {
          assert perfis[a].usuarioId in users;
        }
      }
      forall uid | uid in users'
        ensures exists pid :: pid in perfis' && perfis'[pid].usuarioId == uid
      {
        if uid == nextUserId {
          assert perfis'[nextPerfilId].usuarioId == uid;
        } else {
          var pid :| pid in perfis && perfis[pid].usuarioId == uid;
          assert perfis'[pid].usuarioId == uid;
        }
      }
    }
  }

  // ================================================================ login

  /** The login payload; either password field may carry the password, an absent one is the empty string. */
  datatype Login = Login(email: string, senha: string, password: string)

  /** One profile of the user as login returns it. */
  datatype Vinculo = Vinculo(papel: Papel, organizacaoId: Option<int>, equipeId: Option<int>)

  /** What the signed token carries. */
  datatype TokenClaims = TokenClaims(userId: int, email: string, perfis: seq<string>)

  datatype Sessao = Sessao(user: UsuarioView, perfis: seq<Vinculo>, token: string)

  /** senha when given, password otherwise. */
  function PasswordValue(p: Login): string {
    if p.senha != [] then p.senha else p.password
  }

  /** How long a lock lasts: fifteen minutes, in milliseconds. */
  const LockMillis := 15 * 60 * 1000

  /** The number of failed attempts from which a failure locks the account. */
  const LockThreshold := 4

  predicate LockedAt(u: Usuario, now: int) {
    u.lockedUntil.Some? && u.lockedUntil.value > now
  }

  datatype Attempt = Locked | Rejected | Accepted

  /** One login attempt on a stored user at time now: its verdict and the user as stored afterwards. */
  function Step(u: Usuario, now: int, correct: bool): (Attempt, Usuario) {
    if LockedAt(u, now) then (Locked, u)
    else if !correct then
      var attempts := u.failedAttempts + 1;
      (Rejected, u.(failedAttempts := attempts,
                    lockedUntil := if attempts >= LockThreshold then Some(now + LockMillis) else u.lockedUntil))
    else (Accepted, u.(failedAttempts := 0, lockedUntil := None))
  }

  /** A locked account refuses the attempt whatever the password, and nothing is stored. */
  lemma {:induction false} LockedRefusesAnyPassword(u: Usuario, now: int, correct: bool)
    requires LockedAt(u, now)
    ensures Step(u, now, correct) == (Locked, u)
  {
  }

  /**
   * A wrong password on an unlocked account adds one failed attempt, sets a
   * fifteen-minute lock exactly when the new count reaches the threshold, and
   * changes nothing else.
   */
  lemma {:induction false} WrongPasswordCounts(u: Usuario, now: int)
    requires !LockedAt(u, now)
    ensures var (verdict, v) := Step(u, now, false);
      && verdict == Rejected
      && v.failedAttempts == u.failedAttempts + 1
      && (v.failedAttempts >= LockThreshold ==> v.lockedUntil == Some(now + LockMillis) && LockedAt(v, now))
      && (v.failedAttempts < LockThreshold ==> v.lockedUntil == u.lockedUntil)
      && v.(failedAttempts := u.failedAttempts, lockedUntil := u.lockedUntil) == u
  {
  }

  /** A right password on an unlocked account clears the counter and the lock, and changes nothing else. */
  lemma {:induction false} RightPasswordResets(u: Usuario, now: int)
    requires !LockedAt(u, now)
    ensures var (verdict, v) := Step(u, now, true);
      && verdict == Accepted && v.failedAttempts == 0 && v.lockedUntil.None?
      && v.(failedAttempts := u.failedAttempts, lockedUntil := u.lockedUntil) == u
  {
  }

  /**
   * Four wrong passwords in a row on an account with no failed attempt and no
   * pending lock lock it at the fourth: within the next fifteen minutes even
   * the right password is refused, and afterwards it is accepted and clears
   * the counter.
   */
  lemma {:induction false} FourFailuresLock(u: Usuario, t1: int, t2: int, t3: int, t4: int, t: int)
    requires u.failedAttempts == 0 && !LockedAt(u, t1)
    requires t1 <= t2 <= t3 <= t4 <= t
    ensures var u1 := Step(u, t1, false).1;
      var u2 := Step(u1, t2, false).1;
      var u3 := Step(u2, t3, false).1;
      var u4 := Step(u3, t4, false).1;
      && u3.failedAttempts == 3 && u3.lockedUntil == u.lockedUntil
      && u4.failedAttempts == 4 && u4.lockedUntil == Some(t4 + LockMillis)
      && (t < t4 + LockMillis ==> Step(u4, t, true) == (Locked, u4))
      && (t >= t4 + LockMillis ==> Step(u4, t, true).0 == Accepted && Step(u4, t, true).1.failedAttempts == 0)
  {
    var u1 := Step(u, t1, false).1;
    assert u1.lockedUntil == u.lockedUntil && u1.failedAttempts == 1;
    var u2 := Step(u1, t2, false).1;
    assert u2.lockedUntil == u.lockedUntil && u2.failedAttempts == 2;
    var u3 := Step(u2, t3, false).1;
    assert u3.lockedUntil == u.lockedUntil && !LockedAt(u3, t4);
  }

  /** Once past the threshold, every further wrong password renews the lock. */
  lemma {:induction false} FailureBeyondThresholdRelocks(u: Usuario, now: int)
    requires !LockedAt(u, now) && u.failedAttempts >= LockThreshold
    ensures Step(u, now, false).1.lockedUntil == Some(now + LockMillis)
  {
  }

  /** The id of the user with the given e-mail among ids lo .. hi-1, the smallest if several. */
  function Lookup(users: UserTable, email: string, lo: int, hi: int): (r: Option<int>)
    ensures r.Some? ==> r.value in users && users[r.value].email == email && lo <= r.value < hi
    ensures r.None? ==> forall id :: lo <= id < hi && id in users ==> users[id].email != email
    decreases hi - lo
  {
    if lo >= hi then None
    else if lo in users && users[lo].email == email then Some(lo)
    else Lookup(users, email, lo + 1, hi)
  }

  /** The store's findUnique by e-mail finds the one user with that e-mail, if there is one. */
  lemma {:induction false} LookupFindsTheUser(users: UserTable, nextUserId: int, email: string)
    requires UsersConsistent(users, nextUserId) && UniqueEmails(users)
    ensures Lookup(users, email, 1, nextUserId).Some? <==> EmailTaken(users, email)
    ensures forall id :: id in users && users[id].email == email ==> Lookup(users, email, 1, nextUserId) == Some(id)
  {
    var r := Lookup(users, email, 1, nextUserId);
    if EmailTaken(users, email) {
      var id :| id in users && users[id].email == email;
      assert 1 <= id < nextUserId;
    }
  }

  /** The profiles of user uid among ids lo .. hi-1, in id order. */
  function PerfisOf(perfis: PerfilTable, uid: int, lo: int, hi: int): (r: seq<Perfil>)
    requires forall pid :: pid in perfis ==> perfis[pid].id == pid
    ensures forall i :: 0 <= i < |r| ==> r[i].usuarioId == uid && r[i].id in perfis && perfis[r[i].id] == r[i] && lo <= r[i].id < hi
    ensures forall i, j :: 0 <= i < j < |r| ==> r[i].id < r[j].id
    ensures forall pid :: lo <= pid < hi && pid in perfis && perfis[pid].usuarioId == uid ==> perfis[pid] in r
    decreases hi - lo
  {
    if lo >= hi then []
    else if lo in perfis && perfis[lo].usuarioId == uid then [perfis[lo]] + PerfisOf(perfis, uid, lo + 1, hi)
    else PerfisOf(perfis, uid, lo + 1, hi)
  }

  /** The links login reports, one per profile. */
  function Vinculos(ps: seq<Perfil>): seq<Vinculo> {
    seq(|ps|, i requires 0 <= i < |ps| => Vinculo(ps[i].papel, ps[i].organizacaoId, ps[i].equipeId))
  }

  /** The role names the token carries, in the order of the profiles. */
  function Papeis(vs: seq<Vinculo>): seq<string> {
    seq(|vs|, i requires 0 <= i < |vs| => PapelName(vs[i].papel))
  }

  /** What a successful login returns for user u: its view, its profiles in id order, and the signed token. */
  function OpenSession(perfis: PerfilTable, nextPerfilId: int, u: Usuario, sign: TokenClaims -> string): Sessao
    requires forall pid :: pid in perfis ==> perfis[pid].id == pid
  {
    var vinculos := Vinculos(PerfisOf(perfis, u.id, 1, nextPerfilId));
    Sessao(ViewOf(u), vinculos, sign(TokenClaims(u.id, u.email, Papeis(vinculos))))
  }

  /**
   * The outcome of login and the user table afterwards, with compare the
   * password hash check and sign the token signer.
   */
  function Authentication(users: UserTable, nextUserId: int, perfis: PerfilTable, nextPerfilId: int, p: Login, now: int,
                          compare: (string, string) -> bool, sign: TokenClaims -> string): (Result<Sessao, Erro>, UserTable)
    requires forall pid :: pid in perfis ==> perfis[pid].id == pid
  {
    var pw := PasswordValue(p);
    if !IsEmail(p.email) || !IsPassword(pw) then (Err(CredenciaisMalFormadas), users)
    else
      match Lookup(users, Trim(ToLower(p.email)), 1, nextUserId)
      case None => (Err(CredenciaisRecusadas), users)
      case Some(id) => Attempted(users, perfis, nextPerfilId, id, pw, now, compare, sign)
  }

  /** The attempt on the user found: the lock, then the password, then the session. */
  function Attempted(users: UserTable, perfis: PerfilTable, nextPerfilId: int, id: int, pw: string, now: int,
                     compare: (string, string) -> bool, sign: TokenClaims -> string): (Result<Sessao, Erro>, UserTable)
    requires forall pid :: pid in perfis ==> perfis[pid].id == pid
    requires id in users
  {
    var (verdict, u') := Step(users[id], now, compare(pw, users[id].senhaHash));
    match verdict
    case Locked => (Err(ContaBloqueada), users)
    case Rejected => (Err(CredenciaisRecusadas), users[id := u'])
    case Accepted => (Ok(OpenSession(perfis, nextPerfilId, users[id], sign)), users[id := u'])
  }

  /**
   * Login fails only with the credentials errors or the lock: apart from the
   * lock, each failure says only that the e-mail or the password is wrong.
   */
  lemma {:induction false} CredentialFailuresUniform(users: UserTable, nextUserId: int, perfis: PerfilTable, nextPerfilId: int,
                                  p: Login, now: int, compare: (string, string) -> bool, sign: TokenClaims -> string)
    requires forall pid :: pid in perfis ==> perfis[pid].id == pid
    ensures var r := Authentication(users, nextUserId, perfis, nextPerfilId, p, now, compare, sign).0;
      && (r.Err? ==> LoginErro(r.error))
  {
    var found := Lookup(users, Trim(ToLower(p.email)), 1, nextUserId);
    if IsEmail(p.email) && IsPassword(PasswordValue(p)) && found.Some? {
      var id := found.value;
      var step := Step(users[id], now, compare(PasswordValue(p), users[id].senhaHash));
      var r := Attempted(users, perfis, nextPerfilId, id, PasswordValue(p), now, compare, sign).0;
      assert r.Err? ==> r.error == ContaBloqueada || r.error == CredenciaisRecusadas;
    }
  }

  /**
   * Login writes at most the counter and the lock of the one user it found,
   * the way Step says; nobody else changes.
   */
  lemma {:induction false} LoginTouchesOnlyTheLock(users: UserTable, nextUserId: int, perfis: PerfilTable, nextPerfilId: int,
                                p: Login, now: int, compare: (string, string) -> bool, sign: TokenClaims -> string)
    requires forall pid :: pid in perfis ==> perfis[pid].id == pid
    ensures var users' := Authentication(users, nextUserId, perfis, nextPerfilId, p, now, compare, sign).1;
      && users'.Keys == users.Keys
      && forall id :: id in users ==>
           users'[id] == users[id] ||
           (users[id].email == Trim(ToLower(p.email)) &&
            users'[id] == Step(users[id], now, compare(PasswordValue(p), users[id].senhaHash)).1)
  {
    var found := Lookup(users, Trim(ToLower(p.email)), 1, nextUserId);
    if IsEmail(p.email) && IsPassword(PasswordValue(p)) && found.Some? {
      AttemptTouchesOnlyTheLock(users, perfis, nextPerfilId, found.value, PasswordValue(p), now, compare, sign);
    }
  }

  /** The attempt writes at most the one user it is made on, the way Step says. */
  lemma {:induction false} AttemptTouchesOnlyTheLock(users: UserTable, perfis: PerfilTable, nextPerfilId: int, id: int, pw: string, now: int,
                                  compare: (string, string) -> bool, sign: TokenClaims -> string)
    requires forall pid :: pid in perfis ==> perfis[pid].id == pid
    requires id in users
    ensures var users' := Attempted(users, perfis, nextPerfilId, id, pw, now, compare, sign).1;
      && users'.Keys == users.Keys
      && users'[id] == Step(users[id], now, compare(pw, users[id].senhaHash)).1
      && forall k :: k in users && k != id ==> users'[k] == users[k]
  {
  }

  /**
   * An unknown e-mail and a wrong password are answered with the same error,
   * so a caller cannot tell which of the two it was.
   */
  lemma {:induction false} UnknownUserLikeWrongPassword(users: UserTable, nextUserId: int, perfis: PerfilTable, nextPerfilId: int,
                                     p: Login, q: Login, now: int, compare: (string, string) -> bool, sign: TokenClaims -> string)
    requires UsersConsistent(users, nextUserId) && UniqueEmails(users)
    requires forall pid :: pid in perfis ==> perfis[pid].id == pid
    requires IsEmail(p.email) && IsPassword(PasswordValue(p)) && !EmailTaken(users, Trim(ToLower(p.email)))
    requires IsEmail(q.email) && IsPassword(PasswordValue(q))
    requires EmailTaken(users, Trim(ToLower(q.email)))
    requires forall id :: id in users && users[id].email == Trim(ToLower(q.email)) ==>
               !LockedAt(users[id], now) && !compare(PasswordValue(q), users[id].senhaHash)
    ensures Authentication(users, nextUserId, perfis, nextPerfilId, p, now, compare, sign).0 == Err(CredenciaisRecusadas)
    ensures Authentication(users, nextUserId, perfis, nextPerfilId, q, now, compare, sign).0 == Err(CredenciaisRecusadas)
  {
    LookupFindsTheUser(users, nextUserId, Trim(ToLower(p.email)));
    LookupFindsTheUser(users, nextUserId, Trim(ToLower(q.email)));
  }

  /** Login on a locked account fails with 403 whatever the password, and stores nothing. */
  lemma {:induction false} LockedLoginChangesNothing(users: UserTable, nextUserId: int, perfis: PerfilTable, nextPerfilId: int,
                                  p: Login, now: int, compare: (string, string) -> bool, sign: TokenClaims -> string)
    requires UsersConsistent(users, nextUserId) && UniqueEmails(users)
    requires forall pid :: pid in perfis ==> perfis[pid].id == pid
    requires IsEmail(p.email) && IsPassword(PasswordValue(p))
    requires exists id :: id in users && users[id].email == Trim(ToLower(p.email)) && LockedAt(users[id], now)
    ensures Authentication(users, nextUserId, perfis, nextPerfilId, p, now, compare, sign) == (Err(ContaBloqueada), users)
  {
    var id :| id in users && users[id].email == Trim(ToLower(p.email)) && LockedAt(users[id], now);
    LookupFindsTheUser(users, nextUserId, Trim(ToLower(p.email)));
  }

  /** A successful login opens the session of the user whose stored e-mail is the normalised one sent. */
  lemma {:induction false} LoginOpensSession(users: UserTable, nextUserId: int, perfis: PerfilTable, nextPerfilId: int,
                          p: Login, now: int, compare: (string, string) -> bool, sign: TokenClaims -> string)
    requires forall pid :: pid in perfis ==> perfis[pid].id == pid
    requires Authentication(users, nextUserId, perfis, nextPerfilId, p, now, compare, sign).0.Ok?
    ensures exists id :: id in users && users[id].email == Trim(ToLower(p.email)) &&
                         Authentication(users, nextUserId, perfis, nextPerfilId, p, now, compare, sign).0.value == OpenSession(perfis, nextPerfilId, users[id], sign)
  {
    var found := Lookup(users, Trim(ToLower(p.email)), 1, nextUserId);
    assert IsEmail(p.email) && IsPassword(PasswordValue(p)) && found.Some?;
    var id := found.value;
    assert users[id].email == Trim(ToLower(p.email));
    var step := Step(users[id], now, compare(PasswordValue(p), users[id].senhaHash));
    assert step.0 == Accepted;
  }

  /**
   * Under the store invariant a session holds the user's one profile, and
   * the token carries exactly that profile's role.
   */
  lemma {:induction false} SessionCarriesTheProfileRole(users: UserTable, nextUserId: int, perfis: PerfilTable, nextPerfilId: int,
                                     id: int, sign: TokenClaims -> string)
    requires StoreInvariant(users, nextUserId, perfis, nextPerfilId)
    requires id in users
    ensures var s := OpenSession(perfis, nextPerfilId, users[id], sign);
      && |s.perfis| == 1
      && (exists pid :: pid in perfis && perfis[pid].usuarioId == id && perfis[pid].papel == s.perfis[0].papel)
      && s.token == sign(TokenClaims(id, users[id].email, [PapelName(s.perfis[0].papel)]))
  {
    var ps := PerfisOf(perfis, id, 1, nextPerfilId);
    var pid :| pid in perfis && perfis[pid].usuarioId == id;
    PerfisOfOne(perfis, id, pid, 1, nextPerfilId);
    assert Papeis(Vinculos(ps)) == [PapelName(ps[0].papel)];
  }

  /** No profile of uid among ids lo .. hi-1: none is collected. */
  lemma {:induction false} PerfisOfNone(perfis: PerfilTable, uid: int, lo: int, hi: int)
    requires forall pid :: pid in perfis ==> perfis[pid].id == pid
    requires forall pid :: lo <= pid < hi && pid in perfis ==> perfis[pid].usuarioId != uid
    ensures PerfisOf(perfis, uid, lo, hi) == []
    decreases hi - lo
  {
    if lo < hi {
      PerfisOfNone(perfis, uid, lo + 1, hi);
    }
  }

  /** The only profile of uid, when its id is among lo .. hi-1, is all that is collected. */
  lemma {:induction false} PerfisOfOne(perfis: PerfilTable, uid: int, pid: int, lo: int, hi: int)
    requires forall q :: q in perfis ==> perfis[q].id == q
    requires lo <= pid < hi && pid in perfis && perfis[pid].usuarioId == uid
    requires forall q :: q in perfis && q != pid ==> perfis[q].usuarioId != uid
    ensures PerfisOf(perfis, uid, lo, hi) == [perfis[pid]]
    decreases hi - lo
  {
    if lo == pid {
      PerfisOfNone(perfis, uid, lo + 1, hi);
    } else {
      PerfisOfOne(perfis, uid, pid, lo + 1, hi);
    }
  }

  /** Login changes only the counter and the lock of the stored user, so the store invariant survives. */
  lemma {:induction false} LoginKeepsInvariant(users: UserTable, nextUserId: int, perfis: PerfilTable, nextPerfilId: int, id: int, v: Usuario)
    requires StoreInvariant(users, nextUserId, perfis, nextPerfilId)
    requires id in users && v.(failedAttempts := users[id].failedAttempts, lockedUntil := users[id].lockedUntil) == users[id]
    ensures StoreInvariant(users[id := v], nextUserId, perfis, nextPerfilId)
  {
    var users' := users[id := v];
    assert v.email == users[id].email && v.id == id;
    assert UniqueEmails(users') by {
      forall a, b | a in users' && b in users' && a != b
        ensures users'[a].email != users'[b].email
      {
        assert users'[a].email == users[a].email && users'[b].email == users[b].email;
      }
    }
    assert OneProfileEach(users', perfis) by {
      forall uid | uid in users'
        ensures exists pid :: pid in perfis && perfis[pid].usuarioId == uid
      {
        assert uid in users;
      }
    }
  }

  // ================================================================ list

  /** A user as the listing shows it. */
  datatype UsuarioResumo = UsuarioResumo(id: int, nome: string, email: string, status: UserStatus)

  function Resumo(u: Usuario): UsuarioResumo {
    UsuarioResumo(u.id, u.nome, u.email, u.status)
  }

  /** The listing shows active users whose nome contains the filter, ignoring case, when a filter is given. */
  predicate Listed(nome: Option<string>, u: Usuario) {
    u.status == Ativo && (Truthy(nome) ==> ContainsIgnoringCase(u.nome, nome.value))
  }

  predicate SortedByNome(s: seq<UsuarioResumo>) {
    forall i, j :: 0 <= i < j < |s| ==> LexLe(s[i].nome, s[j].nome)
  }

  /** The listed users among ids lo .. hi-1, in id order. */
  function ListedBetween(users: UserTable, nome: Option<string>, lo: int, hi: int): (r: seq<UsuarioResumo>)
    requires forall id :: id in users ==> users[id].id == id
    ensures forall i :: 0 <= i < |r| ==> lo <= r[i].id < hi && r[i].id in users && r[i] == Resumo(users[r[i].id]) && Listed(nome, users[r[i].id])
    ensures forall i, j :: 0 <= i < j < |r| ==> r[i].id < r[j].id
    ensures forall id :: lo <= id < hi && id in users && Listed(nome, users[id]) ==> Resumo(users[id]) in r
    decreases hi - lo
  {
    if lo >= hi then []
    else if lo in users && Listed(nome, users[lo]) then [Resumo(users[lo])] + ListedBetween(users, nome, lo + 1, hi)
    else ListedBetween(users, nome, lo + 1, hi)
  }

  function InsertByNome(v: UsuarioResumo, s: seq<UsuarioResumo>): (r: seq<UsuarioResumo>)
    requires SortedByNome(s)
    ensures multiset(r) == multiset(s) + multiset{v}
    ensures SortedByNome(r)
  {
    if s == [] then [v]
    else if LexLe(v.nome, s[0].nome) then
      BeforeHeadBeforeAll(v, s);
      PrependSorted(v, s);
      [v] + s
    else
      LexLeTotal(v.nome, s[0].nome);
      var rest := InsertByNome(v, s[1..]);
      assert s == [s[0]] + s[1..];
      HeadBeforeInserted(s, v, rest);
      PrependSorted(s[0], rest);
      [s[0]] + rest
  }

  /** A user whose nome comes before the head of a sorted listing comes before all of it. */
  lemma {:induction false} BeforeHeadBeforeAll(v: UsuarioResumo, s: seq<UsuarioResumo>)
    requires SortedByNome(s) && s != [] && LexLe(v.nome, s[0].nome)
    ensures forall k :: 0 <= k < |s| ==> LexLe(v.nome, s[k].nome)
  {
    forall k | 0 <= k < |s| ensures LexLe(v.nome, s[k].nome) {
      if k > 0 { LexLeTransitive(v.nome, s[0].nome, s[k].nome); }
    }
  }

  /** The head of a sorted listing comes before everything of its tail with v inserted, when it comes before v. */
  lemma {:induction false} HeadBeforeInserted(s: seq<UsuarioResumo>, v: UsuarioResumo, rest: seq<UsuarioResumo>)
    requires SortedByNome(s) && s != [] && LexLe(s[0].nome, v.nome)
    requires multiset(rest) == multiset(s[1..]) + multiset{v}
    ensures forall k :: 0 <= k < |rest| ==> LexLe(s[0].nome, rest[k].nome)
  {
    forall k | 0 <= k < |rest| ensures LexLe(s[0].nome, rest[k].nome) {
      assert rest[k] in multiset(rest);
      if rest[k] != v {
        assert rest[k] in multiset(s[1..]);
        var m :| 0 <= m < |s[1..]| && s[1..][m] == rest[k];
        assert s[1 + m] == rest[k];
      }
    }
  }

  /** A user whose nome comes before every nome of a sorted listing can go in front of it. */
  lemma {:induction false} PrependSorted(v: UsuarioResumo, s: seq<UsuarioResumo>)
    requires SortedByNome(s) && forall k :: 0 <= k < |s| ==> LexLe(v.nome, s[k].nome)
    ensures SortedByNome([v] + s)
  {
    var r := [v] + s;
    forall i, j | 0 <= i < j < |r| ensures LexLe(r[i].nome, r[j].nome) {
      if i == 0 {
        assert r[j] == s[j - 1];
      } else {
        assert r[i] == s[i - 1] && r[j] == s[j - 1];
      }
    }
  }

  /** The store's orderBy nome ascending: the same users, sorted. */
  function SortByNome(s: seq<UsuarioResumo>): (r: seq<UsuarioResumo>)
    ensures multiset(r) == multiset(s)
    ensures SortedByNome(r)
  {
    if s == [] then []
    else
      assert s == [s[0]] + s[1..];
      InsertByNome(s[0], SortByNome(s[1..]))
  }

  /** A reordering of a sequence with increasing ids has distinct ids. */
  lemma {:induction false} PermutationIdsDistinct(s: seq<UsuarioResumo>, r: seq<UsuarioResumo>)
    requires forall i, j :: 0 <= i < j < |s| ==> s[i].id < s[j].id
    requires multiset(r) == multiset(s)
    ensures forall i, j :: 0 <= i < j < |r| ==> r[i].id != r[j].id
  {
    assert Distinct(s);
    SubMultisetDistinct(s, r);
    forall i, j | 0 <= i < j < |r|
      ensures r[i].id != r[j].id
    {
      assert r[i] in multiset(s) && r[j] in multiset(s);
      var k :| 0 <= k < |s| && s[k] == r[i];
      var m :| 0 <= m < |s| && s[m] == r[j];
      assert r[i] != r[j];
    }
  }

  /** The sorted listing holds each listed user once, as its summary, and nobody else. */
  lemma {:induction false} ListingSelects(users: UserTable, nextUserId: int, nome: Option<string>)
    requires UsersConsistent(users, nextUserId)
    ensures var r := SortByNome(ListedBetween(users, nome, 1, nextUserId));
      && (forall id :: id in users ==> (Resumo(users[id]) in r <==> Listed(nome, users[id])))
      && (forall i :: 0 <= i < |r| ==> r[i].id in users && r[i] == Resumo(users[r[i].id]))
      && (forall i, j :: 0 <= i < j < |r| ==> r[i].id != r[j].id)
  {
    var matching := ListedBetween(users, nome, 1, nextUserId);
    var r := SortByNome(matching);
    forall i | 0 <= i < |r|
      ensures r[i].id in users && r[i] == Resumo(users[r[i].id])
    {
      assert r[i] in multiset(matching);
    }
    forall id | id in users
      ensures Resumo(users[id]) in r <==> Listed(nome, users[id])
    {
      assert Resumo(users[id]) in r <==> Resumo(users[id]) in multiset(matching);
      if Resumo(users[id]) in matching {
        var k :| 0 <= k < |matching| && matching[k] == Resumo(users[id]);
        assert matching[k].id == id;
      }
    }
    PermutationIdsDistinct(matching, r);
  }

  // ================================================================ service

  class UsuarioService {
    var users: UserTable
    var nextUserId: int
    var perfis: PerfilTable
    var nextPerfilId: int

    ghost predicate Valid()
      reads this
    {
      StoreInvariant(users, nextUserId, perfis, nextPerfilId)
    }

    constructor ()
      ensures Valid() && users == map[] && perfis == map[]
    {
      users, nextUserId := map[], 1;
      perfis, nextPerfilId := map[], 1;
    }

    /** createUsuario: the checks in order, then the user and its profile in one transaction. */
    method Create(p: NovoUsuario, req: Requester, equipes: Equipes, senhaHash: string, now: int) returns (r: Result<Registro, Erro>)
      requires Valid()
      modifies this
      ensures Valid()
      ensures r == CreateResult(old(users), old(nextUserId), old(nextPerfilId), p, req, equipes, senhaHash, now)
      ensures r.Err? ==> users == old(users) && perfis == old(perfis) && nextUserId == old(nextUserId) && nextPerfilId == old(nextPerfilId)
      ensures r.Ok? ==>
        && users == old(users)[old(nextUserId) := NewUsuario(old(nextUserId), p, senhaHash, now)]
        && perfis == old(perfis)[old(nextPerfilId) := NewPerfil(old(nextPerfilId), old(nextUserId), r.value.perfil.papel, p, now)]
        && nextUserId == old(nextUserId) + 1 && nextPerfilId == old(nextPerfilId) + 1
    {
      if Trim(p.nome) == [] { return Err(NomeObrigatorio); }
      if !IsEmail(p.email) { return Err(EmailInvalido); }
      if !IsPassword(p.senha) { return Err(SenhaInvalida); }
      var papel := ParsePapel(p.papel);
      if papel.None? { return Err(PapelInvalido); }

      if req.role == [] { return Err(RoleObrigatorio); }

      if EmailTaken(users, p.email) { return Err(EmailDuplicado); }
      if papel == Some(ORG) && req.role != "ADM" { return Err(ApenasAdmCriaOrg); }
      if papel == Some(TEC) && !Given(p.equipeId) { return Err(EquipeObrigatoria); }
      if papel == Some(TEC) && req.role == "ORG" {
        if !Given(req.organizacaoId) { return Err(OrganizacaoDoCriador); }
        if p.equipeId.value !in equipes { return Err(EquipeInexistente); }
        if equipes[p.equipeId.value] != Some(req.organizacaoId.value) { return Err(OrganizacaoDivergente); }
      }

      assert CreateCheck(users, p, req, equipes).None?;
      assert PapelName(papel.value) == p.papel;
      r := Register(p, papel.value, senhaHash, now);
    }

    /**
     * The transaction of create: the user row, then its profile. The store's
     * unique index on the e-mail may refuse the first insert, and then
     * neither row is written.
     */
    method Register(p: NovoUsuario, papel: Papel, senhaHash: string, now: int) returns (r: Result<Registro, Erro>)
      requires Valid()
      requires IsEmail(p.email) && PapelName(papel) == p.papel
      requires papel == TEC ==> Given(p.equipeId)
      modifies this
      ensures Valid()
      ensures r.Err? <==> EmailTaken(old(users), StoredEmail(p))
      ensures r.Err? ==> r == Err(EmailUnico) && users == old(users) && perfis == old(perfis) && nextUserId == old(nextUserId) && nextPerfilId == old(nextPerfilId)
      ensures r.Ok? ==>
        && r.value == Registro(ViewOf(NewUsuario(old(nextUserId), p, senhaHash, now)),
                               PerfilViewOf(NewPerfil(old(nextPerfilId), old(nextUserId), papel, p, now)))
        && users == old(users)[old(nextUserId) := NewUsuario(old(nextUserId), p, senhaHash, now)]
        && perfis == old(perfis)[old(nextPerfilId) := NewPerfil(old(nextPerfilId), old(nextUserId), papel, p, now)]
        && nextUserId == old(nextUserId) + 1 && nextPerfilId == old(nextPerfilId) + 1
    {
      if EmailTaken(users, StoredEmail(p)) { return Err(EmailUnico); }
      var user := NewUsuario(nextUserId, p, senhaHash, now);
      var perfil := NewPerfil(nextPerfilId, user.id, papel, p, now);
      StoredEmailNormalised(p);
      Insert(user, perfil);
      r := Ok(Registro(ViewOf(user), PerfilViewOf(perfil)));
    }

    /** The two inserts of the transaction, under the next free ids. */
    method Insert(u: Usuario, q: Perfil)
      requires Valid()
      requires u.id == nextUserId && q.id == nextPerfilId && q.usuarioId == nextUserId
      requires !EmailTaken(users, u.email) && NoUpper(u.email)
      requires q.papel == TEC ==> Given(q.equipeId)
      modifies this
      ensures Valid()
      ensures users == old(users)[old(nextUserId) := u] && nextUserId == old(nextUserId) + 1
      ensures perfis == old(perfis)[old(nextPerfilId) := q] && nextPerfilId == old(nextPerfilId) + 1
    {
      RegisterKeepsInvariant(users, nextUserId, perfis, nextPerfilId, u, q);
      users, nextUserId := users[nextUserId := u], nextUserId + 1;
      perfis, nextPerfilId := perfis[nextPerfilId := q], nextPerfilId + 1;
    }

    /** authenticateUsuario: the lock is checked before the password, and every attempt on an unlocked account is recorded. */
    method Authenticate(p: Login, now: int, compare: (string, string) -> bool, sign: TokenClaims -> string) returns (r: Result<Sessao, Erro>)
      requires Valid()
      modifies this
      ensures Valid()
      ensures (r, users) == Authentication(old(users), nextUserId, perfis, nextPerfilId, p, now, compare, sign)
      ensures perfis == old(perfis) && nextUserId == old(nextUserId) && nextPerfilId == old(nextPerfilId)
    {
      var pw := PasswordValue(p);
      if !IsEmail(p.email) { return Err(CredenciaisMalFormadas); }
      if !IsPassword(pw) { return Err(CredenciaisMalFormadas); }

      var found := Lookup(users, Trim(ToLower(p.email)), 1, nextUserId);
      if found.None? { return Err(CredenciaisRecusadas); }
      r := Attempt(found.value, pw, now, compare, sign);
    }

    /** The attempt on the user found; every attempt on an unlocked account is recorded. */
    method Attempt(id: int, pw: string, now: int, compare: (string, string) -> bool, sign: TokenClaims -> string) returns (r: Result<Sessao, Erro>)
      requires Valid() && id in users
      modifies this
      ensures Valid()
      ensures (r, users) == Attempted(old(users), perfis, nextPerfilId, id, pw, now, compare, sign)
      ensures perfis == old(perfis) && nextUserId == old(nextUserId) && nextPerfilId == old(nextPerfilId)
    {
      var user := users[id];
      ghost var step := Step(user, now, compare(pw, user.senhaHash));

      if user.lockedUntil.Some? && user.lockedUntil.value > now {
        assert step.0 == Locked;
        return Err(ContaBloqueada);
      }

      if !compare(pw, user.senhaHash) {
        var attempts := user.failedAttempts + 1;
        var lockedUntil := user.lockedUntil;
        if attempts >= LockThreshold {
          lockedUntil := Some(now + LockMillis);
        }
        assert step == (Rejected, user.(failedAttempts := attempts, lockedUntil := lockedUntil));
        StoreAttempt(id, user.(failedAttempts := attempts, lockedUntil := lockedUntil));
        return Err(CredenciaisRecusadas);
      }

      assert step == (Accepted, user.(failedAttempts := 0, lockedUntil := None));
      StoreAttempt(id, user.(failedAttempts := 0, lockedUntil := None));
      var vinculos := Vinculos(PerfisOf(perfis, user.id, 1, nextPerfilId));
      var token := sign(TokenClaims(user.id, user.email, Papeis(vinculos)));
      r := Ok(Sessao(ViewOf(user), vinculos, token));
    }

    /** The store's update of the counter and the lock of one user. */
    method StoreAttempt(id: int, v: Usuario)
      requires Valid()
      requires id in users && v.(failedAttempts := users[id].failedAttempts, lockedUntil := users[id].lockedUntil) == users[id]
      modifies this
      ensures Valid()
      ensures users == old(users)[id := v]
      ensures perfis == old(perfis) && nextUserId == old(nextUserId) && nextPerfilId == old(nextPerfilId)
    {
      LoginKeepsInvariant(users, nextUserId, perfis, nextPerfilId, id, v);
      users := users[id := v];
    }

    /** listUsuarios: the active users matching the nome filter, sorted by nome, without the hash. */
    function List(nome: Option<string>): (r: seq<UsuarioResumo>)
      reads this
      requires Valid()
      ensures forall id :: id in users ==> (Resumo(users[id]) in r <==> Listed(nome, users[id]))
      ensures forall i :: 0 <= i < |r| ==> r[i].id in users && r[i] == Resumo(users[r[i].id])
      ensures SortedByNome(r)
      ensures forall i, j :: 0 <= i < j < |r| ==> r[i].id != r[j].id
    {
      ListingSelects(users, nextUserId, nome);
      SortByNome(ListedBetween(users, nome, 1, nextUserId))
    }
  }
}
