/**
 * The organisation service: registration with shape and uniqueness checks,
 * filtered and ordered listing, lookup by id, the administrator-only edit
 * with its field-by-field rules, and deletion that is physical only when
 * nothing depends on the organisation.
 *
 * The store is an in-memory table from id to record, held by the class
 * OrganizacaoService. The number of tournaments, teams and athletes that
 * depend on an organisation are counts the store would answer; they are
 * passed in as arguments.
 */
module Organizacoes {
  import opened Outcomes
  import opened Text
  import opened Validators
  import opened Sequences

  datatype Status = Ativo | Inativo

  function StatusName(s: Status): string {
    match s
    case Ativo => "ATIVO"
    case Inativo => "INATIVO"
  }

  /** String(status).toUpperCase(), accepted only when it names one of the two statuses. */
  function ParseStatus(s: string): Option<Status> {
    var u := ToUpper(s);
    if u == "ATIVO" then Some(Ativo) else if u == "INATIVO" then Some(Inativo) else None
  }

  /** A status parses to exactly the status whose name is its upper-case form. */
  lemma {:induction false} ParseStatusNames(s: string, st: Status)
    ensures ParseStatus(s) == Some(st) <==> StatusName(st) == ToUpper(s)
  {
  }

  datatype Organizacao = Organizacao(
    id: int,
    nome: string,
    cnpj: string,
    responsavel: string,
    telefone: string,
    email: string,
    endereco: Option<string>,
    status: Status,
    createdAt: int)

  type Table = map<int, Organizacao>


  /** The errors the service throws. */
  datatype Erro =
    | NomeObrigatorio | CnpjObrigatorio | CnpjInvalido | ResponsavelObrigatorio | TelefoneInvalido | EmailInvalido
    | NomeDuplicado | CnpjDuplicado
    | ApenasAdm | NaoEncontrada | ResponsavelVazio | StatusInvalido | NomeVazio | RenomeBloqueado

  /** The status code of each error; every error is a client error. */
  function StatusCode(e: Erro): (code: int)
    ensures 400 <= code < 500
  {
    match e
    case NomeObrigatorio => 400
    case CnpjObrigatorio => 400
    case CnpjInvalido => 400
    case ResponsavelObrigatorio => 400
    case TelefoneInvalido => 400
    case EmailInvalido => 400
    case NomeDuplicado => 409
    case CnpjDuplicado => 409
    case ApenasAdm => 403
    case NaoEncontrada => 404
    case ResponsavelVazio => 400
    case StatusInvalido => 400
    case NomeVazio => 400
    case RenomeBloqueado => 400
  }

  function Message(e: Erro): string {
    match e
    case NomeObrigatorio => "Nome é obrigatório"
    case CnpjObrigatorio => "CNPJ é obrigatório"
    case CnpjInvalido => "CNPJ inválido. Use o formato NN.NNN.NNN/NNNN-NN"
    case ResponsavelObrigatorio => "Responsável é obrigatório"
    case TelefoneInvalido => "Telefone inválido. Informe DDD, ex: (11) 99999-9999"
    case EmailInvalido => "Email inválido"
    case NomeDuplicado => "Já existe uma organização com este nome"
    case CnpjDuplicado => "Já existe uma organização com este CNPJ"
    case ApenasAdm => "Apenas ADM pode editar organização"
    case NaoEncontrada => "Organização não encontrada"
    case ResponsavelVazio => "Responsável não pode ser vazio"
    case StatusInvalido => "Status inválido. Use \"ATIVO\" ou \"INATIVO\""
    case NomeVazio => "Nome não pode ser vazio"
    case RenomeBloqueado => "Não é permitido renomear organização com torneios vinculados"
  }

  /** Each error as it reaches the controllers. */
  function Thrown(e: Erro): Failure {
    ServiceError(Message(e), StatusCode(e))
  }

  /** The controllers answer each error with its status code. */
  lemma {:induction false} StatusCodeAnswered(e: Erro)
    ensures HttpStatus(Thrown(e)) == StatusCode(e)
  {
    var code := StatusCode(e);
    assert code != 0;
  }

  // ================================================================ table invariant

  predicate NomeTaken(rows: Table, nome: string) {
    exists id :: id in rows && rows[id].nome == nome
  }

  predicate CnpjTaken(rows: Table, cnpj: string) {
    exists id :: id in rows && rows[id].cnpj == cnpj
  }

  /** Trimmed and not empty. */
  predicate Filled(s: string) {
    s != [] && Trimmed(s)
  }

  /** What create and update guarantee of every stored record. */
  predicate WellFormed(o: Organizacao) {
    && Filled(o.nome)
    && IsCnpj(o.cnpj)
    && Filled(o.responsavel)
    && IsPhone(o.telefone) && Trimmed(o.telefone)
    && IsEmail(o.email)
    && (o.endereco.Some? ==> Filled(o.endereco.value))
  }

  /** nome and cnpj are unique across the table. */
  predicate UniqueKeys(rows: Table) {
    forall a, b :: a in rows && b in rows && a != b ==> rows[a].nome != rows[b].nome && rows[a].cnpj != rows[b].cnpj
  }

  /** Ids are below the next id to hand out, and every record sits under its own id. */
  predicate IdsConsistent(rows: Table, nextId: int) {
    && 1 <= nextId
    && forall id :: id in rows ==> 1 <= id < nextId && rows[id].id == id
  }

  predicate AllWellFormed(rows: Table) {
    forall id :: id in rows ==> WellFormed(rows[id])
  }

  predicate TableInvariant(rows: Table, nextId: int) {
    IdsConsistent(rows, nextId) && AllWellFormed(rows) && UniqueKeys(rows)
  }

  /** Storing a well-formed record under a fresh id keeps the invariant when its keys are free. */
  lemma {:induction false} InsertKeepsInvariant(rows: Table, nextId: int, o: Organizacao)
    requires TableInvariant(rows, nextId)
    requires o.id == nextId && WellFormed(o) && !NomeTaken(rows, o.nome) && !CnpjTaken(rows, o.cnpj)
    ensures TableInvariant(rows[nextId := o], nextId + 1)
  {
    var rows' := rows[nextId := o];
    assert nextId !in rows;
    assert IdsConsistent(rows', nextId + 1);
    forall a, b | a in rows' && b in rows' && a != b
      ensures rows'[a].nome != rows'[b].nome && rows'[a].cnpj != rows'[b].cnpj
    {
      if a == nextId {
        assert rows[b].nome != o.nome && rows[b].cnpj != o.cnpj;
      } else if b == nextId {
        assert rows[a].nome != o.nome && rows[a].cnpj != o.cnpj;
      }
    }
  }

  /**
   * Replacing a record by a well-formed one with the same id and cnpj keeps the
   * invariant when a changed name is free.
   */
  lemma {:induction false} ReplaceKeepsInvariant(rows: Table, nextId: int, n: Organizacao)
    requires TableInvariant(rows, nextId)
    requires n.id in rows && WellFormed(n) && n.cnpj == rows[n.id].cnpj
    requires n.nome != rows[n.id].nome ==> !NomeTaken(rows, n.nome)
    ensures TableInvariant(rows[n.id := n], nextId)
  {
    var id := n.id;
    var rows' := rows[id := n];
    assert IdsConsistent(rows', nextId);
    ReplaceKeepsUnique(rows, n);
  }

  lemma {:induction false} ReplaceKeepsUnique(rows: Table, n: Organizacao)
    requires UniqueKeys(rows)
    requires n.id in rows && n.cnpj == rows[n.id].cnpj
    requires n.nome != rows[n.id].nome ==> !NomeTaken(rows, n.nome)
    ensures UniqueKeys(rows[n.id := n])
  {
    var id := n.id;
    var rows' := rows[id := n];
    forall a, b | a in rows' && b in rows' && a != b
      ensures rows'[a].nome != rows'[b].nome && rows'[a].cnpj != rows'[b].cnpj
    {
      if a == id {
        assert rows'[b] == rows[b];
        assert rows[b].nome != rows[id].nome && rows[b].cnpj != rows[id].cnpj;
        if n.nome != rows[id].nome {
          assert rows[b].nome != n.nome;
        }
      } else if b == id {
        assert rows'[a] == rows[a];
        assert rows[a].nome != rows[id].nome && rows[a].cnpj != rows[id].cnpj;
        if n.nome != rows[id].nome {
          assert rows[a].nome != n.nome;
        }
      } else {
        assert rows'[a] == rows[a] && rows'[b] == rows[b];
      }
    }
  }

  // ================================================================ create

  /** The payload of create; an absent field is the empty string. */
  datatype NovaOrganizacao = NovaOrganizacao(
    nome: string, cnpj: string, responsavel: string,
    telefone: string, email: string, endereco: string)

  /** Every trimmed field has the shape create demands. */
  predicate ShapeOk(p: NovaOrganizacao) {
    && Trim(p.nome) != []
    && IsCnpj(Trim(p.cnpj))
    && Trim(p.responsavel) != []
    && IsPhone(Trim(p.telefone))
    && IsEmail(Trim(p.email))
  }

  /** The first shape check of create that fails, in the order the service runs them. */
  function FirstShapeError(p: NovaOrganizacao): (r: Option<Erro>)
    ensures r.None? <==> ShapeOk(p)
    ensures r.Some? ==> StatusCode(r.value) == 400
  {
    var nome, cnpj, responsavel := Trim(p.nome), Trim(p.cnpj), Trim(p.responsavel);
    var telefone, email := Trim(p.telefone), Trim(p.email);
    if nome == [] then Some(NomeObrigatorio)
    else if cnpj == [] then Some(CnpjObrigatorio)
    else if !IsCnpj(cnpj) then Some(CnpjInvalido)
    else if responsavel == [] then Some(ResponsavelObrigatorio)
    else if telefone == [] || !IsPhone(telefone) then Some(TelefoneInvalido)
    else if email == [] || !IsEmail(email) then Some(EmailInvalido)
    else None
  }

  /** Each message of create's shape checks is reported exactly when every earlier check passed and its own failed. */
  lemma {:induction false} ShapeErrorOrder(p: NovaOrganizacao)
    ensures FirstShapeError(p) == Some(NomeObrigatorio) <==> Trim(p.nome) == []
    ensures FirstShapeError(p) == Some(CnpjObrigatorio) <==> Trim(p.nome) != [] && Trim(p.cnpj) == []
    ensures FirstShapeError(p) == Some(CnpjInvalido) <==>
      Trim(p.nome) != [] && Trim(p.cnpj) != [] && !IsCnpj(Trim(p.cnpj))
    ensures FirstShapeError(p) == Some(ResponsavelObrigatorio) <==>
      Trim(p.nome) != [] && IsCnpj(Trim(p.cnpj)) && Trim(p.responsavel) == []
    ensures FirstShapeError(p) == Some(TelefoneInvalido) <==>
      Trim(p.nome) != [] && IsCnpj(Trim(p.cnpj)) && Trim(p.responsavel) != [] && !IsPhone(Trim(p.telefone))
    ensures FirstShapeError(p) == Some(EmailInvalido) <==>
      Trim(p.nome) != [] && IsCnpj(Trim(p.cnpj)) && Trim(p.responsavel) != [] && IsPhone(Trim(p.telefone))
      && !IsEmail(Trim(p.email))
  {
  }

  /** Blank text becomes null. */
  function NullIfBlank(s: string): Option<string> {
    if s == [] then None else Some(s)
  }

  /** The record create stores: trimmed fields, endereco null when blank, status ATIVO. */
  function NewRecord(id: int, now: int, p: NovaOrganizacao): Organizacao {
    Organizacao(id, Trim(p.nome), Trim(p.cnpj), Trim(p.responsavel), Trim(p.telefone), Trim(p.email),
                NullIfBlank(Trim(p.endereco)), Ativo, now)
  }

  /** The outcome of create on table rows, when the store would hand out id at time now. */
  function CreateResult(rows: Table, id: int, now: int, p: NovaOrganizacao): (r: Result<Organizacao, Erro>)
    ensures r.Ok? <==> ShapeOk(p) && !NomeTaken(rows, Trim(p.nome)) && !CnpjTaken(rows, Trim(p.cnpj))
    ensures r.Ok? ==> WellFormed(r.value) && r.value.status == Ativo && r.value.id == id
  {
    match FirstShapeError(p)
    case Some(e) => Err(e)
    case None =>
      if NomeTaken(rows, Trim(p.nome)) then Err(NomeDuplicado)
      else if CnpjTaken(rows, Trim(p.cnpj)) then Err(CnpjDuplicado)
      else
        NewRecordWellFormed(id, now, p);
        Ok(NewRecord(id, now, p))
  }

  lemma {:induction false} NewRecordWellFormed(id: int, now: int, p: NovaOrganizacao)
    requires ShapeOk(p)
    ensures WellFormed(NewRecord(id, now, p))
  {
    TrimSpec(p.nome);
    TrimSpec(p.responsavel);
    TrimSpec(p.telefone);
    TrimSpec(p.endereco);
  }

  /**
   * The stored record is exactly the trimmed payload with status ATIVO and
   * endereco null when blank.
   */
  lemma {:induction false} CreateStoresTrimmedPayload(rows: Table, id: int, now: int, p: NovaOrganizacao)
    requires CreateResult(rows, id, now, p).Ok?
    ensures var o := CreateResult(rows, id, now, p).value;
      && o.nome == Trim(p.nome) && o.cnpj == Trim(p.cnpj) && o.responsavel == Trim(p.responsavel)
      && o.telefone == Trim(p.telefone) && o.email == Trim(p.email) && o.createdAt == now
      && (o.endereco.None? <==> Trim(p.endereco) == [])
      && (o.endereco.Some? ==> o.endereco.value == Trim(p.endereco))
  {
  }

  /** A field of the wrong shape is a 400; a taken name or cnpj is a 409. */
  lemma {:induction false} CreateErrorStatus(rows: Table, id: int, now: int, p: NovaOrganizacao)
    requires CreateResult(rows, id, now, p).Err?
    ensures StatusCode(CreateResult(rows, id, now, p).error) == if ShapeOk(p) then 409 else 400
  {
  }

  /** A duplicate name is reported before a duplicate CNPJ is looked for. */
  lemma {:induction false} CreateNomeConflictFirst(rows: Table, id: int, now: int, p: NovaOrganizacao)
    requires ShapeOk(p) && NomeTaken(rows, Trim(p.nome))
    ensures CreateResult(rows, id, now, p) == Err(NomeDuplicado)
  {
  }

  /** A successful create keeps the table invariant, uniqueness of nome and cnpj included. */
  lemma {:induction false} CreateKeepsInvariant(rows: Table, nextId: int, now: int, p: NovaOrganizacao)
    requires TableInvariant(rows, nextId)
    requires CreateResult(rows, nextId, now, p).Ok?
    ensures TableInvariant(rows[nextId := CreateResult(rows, nextId, now, p).value], nextId + 1)
  {
    var o := CreateResult(rows, nextId, now, p).value;
    assert o == NewRecord(nextId, now, p);
    InsertKeepsInvariant(rows, nextId, o);
  }

  /**
   * Once an organisation is stored, creating another with the same nome or the
   * same cnpj fails with 409 and stores nothing.
   */
  lemma {:induction false} SecondCreateConflicts(rows: Table, nextId: int, now: int, p: NovaOrganizacao, now2: int, q: NovaOrganizacao)
    requires CreateResult(rows, nextId, now, p).Ok?
    requires ShapeOk(q) && (Trim(q.nome) == Trim(p.nome) || Trim(q.cnpj) == Trim(p.cnpj))
    ensures var rows' := rows[nextId := CreateResult(rows, nextId, now, p).value];
      var r := CreateResult(rows', nextId + 1, now2, q);
      r.Err? && StatusCode(r.error) == 409
  {
    var o := CreateResult(rows, nextId, now, p).value;
    assert o == NewRecord(nextId, now, p);
    var rows' := rows[nextId := o];
    assert nextId in rows' && rows'[nextId] == o;
    if Trim(q.nome) == Trim(p.nome) {
      assert NomeTaken(rows', Trim(q.nome));
    } else {
      assert CnpjTaken(rows', Trim(q.cnpj));
    }
    CreateErrorStatus(rows', nextId + 1, now2, q);
  }

  // ================================================================ list

  /** The query-string filters of list; an absent filter is None. */
  datatype Filtros = Filtros(nome: Option<string>, responsavel: Option<string>, status: Option<string>, order: Option<string>)

  datatype OrderBy = NomeAsc | CreatedAtDesc

  /** The where and orderBy objects list hands to the store. */
  datatype Query = Query(nome: Option<string>, responsavel: Option<string>, status: Option<Status>, orderBy: OrderBy)

  function BuildQuery(f: Filtros): Query {
    Query(
      if Truthy(f.nome) then f.nome else None,
      if Truthy(f.responsavel) then f.responsavel else None,
      if Truthy(f.status) then ParseStatus(f.status.value) else None,
      if f.order.Some? && ToLower(f.order.value) == "createdat" then CreatedAtDesc else NomeAsc)
  }

  predicate Matches(q: Query, o: Organizacao) {
    && (q.nome.Some? ==> ContainsIgnoringCase(o.nome, q.nome.value))
    && (q.responsavel.Some? ==> ContainsIgnoringCase(o.responsavel, q.responsavel.value))
    && (q.status.Some? ==> o.status == q.status.value)
  }

  /** a may be listed before b. */
  predicate Before(order: OrderBy, a: Organizacao, b: Organizacao) {
    match order
    case NomeAsc => LexLe(a.nome, b.nome)
    case CreatedAtDesc => a.createdAt >= b.createdAt
  }

  lemma {:induction false} BeforeTotal(order: OrderBy, a: Organizacao, b: Organizacao)
    ensures Before(order, a, b) || Before(order, b, a)
  {
    if order == NomeAsc {
      LexLeTotal(a.nome, b.nome);
    }
  }

  lemma {:induction false} BeforeTransitive(order: OrderBy, a: Organizacao, b: Organizacao, c: Organizacao)
    requires Before(order, a, b) && Before(order, b, c)
    ensures Before(order, a, c)
  {
    if order == NomeAsc {
      LexLeTransitive(a.nome, b.nome, c.nome);
    }
  }

  predicate SortedBy(order: OrderBy, s: seq<Organizacao>) {
    forall i, j :: 0 <= i < j < |s| ==> Before(order, s[i], s[j])
  }

  /** The records stored under ids lo .. hi-1, in id order. */
  function RowsBetween(rows: Table, lo: int, hi: int): seq<Organizacao>
    decreases hi - lo
  {
    if lo >= hi then []
    else if lo in rows then [rows[lo]] + RowsBetween(rows, lo + 1, hi)
    else RowsBetween(rows, lo + 1, hi)
  }

  /** Every record of s is the one stored under its id, which lies in lo .. hi-1. */
  predicate StoredBetween(rows: Table, lo: int, hi: int, s: seq<Organizacao>) {
    forall i :: 0 <= i < |s| ==> lo <= s[i].id < hi && s[i].id in rows && rows[s[i].id] == s[i]
  }

  predicate IdsIncreasing(s: seq<Organizacao>) {
    forall i, j :: 0 <= i < j < |s| ==> s[i].id < s[j].id
  }

  /** RowsBetween holds each record stored under an id in lo .. hi-1 once, by increasing id. */
  lemma {:induction false} RowsBetweenSpec(rows: Table, lo: int, hi: int)
    requires forall id :: id in rows ==> rows[id].id == id
    ensures StoredBetween(rows, lo, hi, RowsBetween(rows, lo, hi))
    ensures IdsIncreasing(RowsBetween(rows, lo, hi))
    ensures forall id :: lo <= id < hi && id in rows ==> rows[id] in RowsBetween(rows, lo, hi)
    decreases hi - lo
  {
    if lo < hi {
      var rest := RowsBetween(rows, lo + 1, hi);
      RowsBetweenSpec(rows, lo + 1, hi);
      if lo in rows {
        var r := [rows[lo]] + rest;
        assert RowsBetween(rows, lo, hi) == r;
        assert forall i :: 0 < i < |r| ==> r[i] == rest[i - 1];
        assert StoredBetween(rows, lo, hi, r);
        assert IdsIncreasing(r);
      }
    }
  }

  /** The records of s the query matches, in the order of s. */
  function Select(q: Query, s: seq<Organizacao>): (r: seq<Organizacao>)
    ensures forall o :: o in r <==> o in s && Matches(q, o)
    ensures multiset(r) <= multiset(s)
  {
    if s == [] then []
    else
      var rest := Select(q, s[1..]);
      assert s == [s[0]] + s[1..];
      if Matches(q, s[0]) then [s[0]] + rest else rest
  }

  /** Places o among the sorted records s. */
  function InsertSorted(order: OrderBy, o: Organizacao, s: seq<Organizacao>): (r: seq<Organizacao>)
    requires SortedBy(order, s)
    ensures multiset(r) == multiset(s) + multiset{o}
    ensures SortedBy(order, r)
  {
    if s == [] then [o]
    else if Before(order, o, s[0]) then
      BeforeHeadBeforeAll(order, o, s);
      PrependSorted(order, o, s);
      [o] + s
    else
      BeforeTotal(order, o, s[0]);
      var rest := InsertSorted(order, o, s[1..]);
      assert s == [s[0]] + s[1..];
      HeadBeforeInserted(order, s, o, rest);
      PrependSorted(order, s[0], rest);
      [s[0]] + rest
  }

  /** A record before the head of a sorted sequence is before all of it. */
  lemma {:induction false} BeforeHeadBeforeAll(order: OrderBy, o: Organizacao, s: seq<Organizacao>)
    requires SortedBy(order, s) && s != [] && Before(order, o, s[0])
    ensures forall k :: 0 <= k < |s| ==> Before(order, o, s[k])
  {
    forall k | 0 <= k < |s| ensures Before(order, o, s[k]) {
      if k > 0 { BeforeTransitive(order, o, s[0], s[k]); }
    }
  }

  /** The head of a sorted sequence is before everything of its tail with o inserted, when it is before o. */
  lemma {:induction false} HeadBeforeInserted(order: OrderBy, s: seq<Organizacao>, o: Organizacao, rest: seq<Organizacao>)
    requires SortedBy(order, s) && s != [] && Before(order, s[0], o)
    requires multiset(rest) == multiset(s[1..]) + multiset{o}
    ensures forall k :: 0 <= k < |rest| ==> Before(order, s[0], rest[k])
  {
    forall k | 0 <= k < |rest| ensures Before(order, s[0], rest[k]) {
      assert rest[k] in multiset(rest);
      if rest[k] != o {
        assert rest[k] in multiset(s[1..]);
        var m :| 0 <= m < |s[1..]| && s[1..][m] == rest[k];
        assert s[1 + m] == rest[k];
      }
    }
  }

  /** A record before everything of a sorted sequence can go in front of it. */
  lemma {:induction false} PrependSorted(order: OrderBy, o: Organizacao, s: seq<Organizacao>)
    requires SortedBy(order, s) && forall k :: 0 <= k < |s| ==> Before(order, o, s[k])
    ensures SortedBy(order, [o] + s)
  {
    var r := [o] + s;
    forall i, j | 0 <= i < j < |r| ensures Before(order, r[i], r[j]) {
      if i == 0 {
        assert r[j] == s[j - 1];
      } else {
        assert r[i] == s[i - 1] && r[j] == s[j - 1];
      }
    }
  }

  /** The store's orderBy: the same records, sorted. */
  function Sort(order: OrderBy, s: seq<Organizacao>): (r: seq<Organizacao>)
    ensures multiset(r) == multiset(s)
    ensures SortedBy(order, r)
  {
    if s == [] then []
    else
      assert s == [s[0]] + s[1..];
      InsertSorted(order, s[0], Sort(order, s[1..]))
  }

  /** A status filter was sent and names one of the two statuses, in any letter case. */
  predicate StatusFilter(f: Filtros) {
    Truthy(f.status) && (ToUpper(f.status.value) == "ATIVO" || ToUpper(f.status.value) == "INATIVO")
  }

  /** What list promises, stated on the filters themselves. */
  predicate Selected(f: Filtros, o: Organizacao) {
    && (Truthy(f.nome) ==> ContainsIgnoringCase(o.nome, f.nome.value))
    && (Truthy(f.responsavel) ==> ContainsIgnoringCase(o.responsavel, f.responsavel.value))
    && (StatusFilter(f) ==> StatusName(o.status) == ToUpper(f.status.value))
  }

  /** The query built from the filters selects exactly the records the filters describe. */
  lemma {:induction false} QueryMatchesFilters(f: Filtros, o: Organizacao)
    ensures Matches(BuildQuery(f), o) <==> Selected(f, o)
  {
    if Truthy(f.status) {
      var u := ToUpper(f.status.value);
      if u == "ATIVO" {
        assert ParseStatus(f.status.value) == Some(Ativo);
      } else if u == "INATIVO" {
        assert ParseStatus(f.status.value) == Some(Inativo);
      } else {
        assert StatusName(Ativo) != u && StatusName(Inativo) != u;
      }
    }
  }

  /** The record order list promises: createdAt descending only on request, nome ascending otherwise. */
  function RequestedOrder(f: Filtros): (order: OrderBy)
    ensures order == CreatedAtDesc <==> f.order.Some? && ToLower(f.order.value) == "createdat"
  {
    BuildQuery(f).orderBy
  }

  // ================================================================ update

  /** The payload of update; a field that is absent is None. */
  datatype EdicaoOrganizacao = EdicaoOrganizacao(
    nome: Option<string>, responsavel: Option<string>, telefone: Option<string>,
    email: Option<string>, endereco: Option<string>, status: Option<string>)

  /** The data object update collects: the fields to write and their new values. */
  datatype Changes = Changes(
    nome: Option<string>, responsavel: Option<string>, telefone: Option<string>,
    email: Option<string>, endereco: Option<Option<string>>, status: Option<Status>)

  const NoChanges := Changes(None, None, None, None, None, None)

  function TrimmedField(v: Option<string>): Option<string> {
    if v.Some? then Some(Trim(v.value)) else None
  }

  /** The name update would write: a changed, trimmed name, if one was sent. */
  function Rename(existing: Organizacao, p: EdicaoOrganizacao): Option<string> {
    if p.nome.Some? && Trim(p.nome.value) != existing.nome then Some(Trim(p.nome.value)) else None
  }

  predicate ResponsavelOk(p: EdicaoOrganizacao) {
    p.responsavel.Some? ==> Trim(p.responsavel.value) != []
  }

  predicate EmailOk(p: EdicaoOrganizacao) {
    p.email.Some? ==> IsEmail(Trim(p.email.value))
  }

  predicate TelefoneOk(p: EdicaoOrganizacao) {
    p.telefone.Some? ==> IsPhone(Trim(p.telefone.value))
  }

  predicate StatusOk(p: EdicaoOrganizacao) {
    p.status.Some? ==> ParseStatus(p.status.value).Some?
  }

  predicate NomeOk(p: EdicaoOrganizacao) {
    p.nome.Some? ==> Trim(p.nome.value) != []
  }

  /** Each field sent to update passes its own check. */
  predicate FieldsValid(p: EdicaoOrganizacao) {
    ResponsavelOk(p) && EmailOk(p) && TelefoneOk(p) && StatusOk(p) && NomeOk(p)
  }

  /** The update renames to a name another organisation holds. */
  predicate RenameTaken(rows: Table, existing: Organizacao, p: EdicaoOrganizacao) {
    Rename(existing, p).Some? && NomeTaken(rows, Rename(existing, p).value)
  }

  /** The first per-field check of update that fails, in the service's order. */
  function UpdateCheck(rows: Table, existing: Organizacao, p: EdicaoOrganizacao, torneios: nat): (r: Option<Erro>)
    ensures r.None? ==> FieldsValid(p) && (Rename(existing, p).Some? ==> torneios == 0 && !RenameTaken(rows, existing, p))
  {
    if FieldCheck(p).Some? then FieldCheck(p) else NomeCheck(rows, existing, p, torneios)
  }

  /** The checks on responsavel, email, telefone and status, which run first. */
  function FieldCheck(p: EdicaoOrganizacao): Option<Erro> {
    if !ResponsavelOk(p) then Some(ResponsavelVazio)
    else if !EmailOk(p) then Some(EmailInvalido)
    else if !TelefoneOk(p) then Some(TelefoneInvalido)
    else if !StatusOk(p) then Some(StatusInvalido)
    else None
  }

  /** The checks on the name, which run last. */
  function NomeCheck(rows: Table, existing: Organizacao, p: EdicaoOrganizacao, torneios: nat): Option<Erro> {
    if !NomeOk(p) then Some(NomeVazio)
    else if Rename(existing, p).Some? && torneios > 0 then Some(RenomeBloqueado)
    else if RenameTaken(rows, existing, p) then Some(NomeDuplicado)
    else None
  }

  /** The fields other than the name that update collects once their checks have passed. */
  function PlainFields(p: EdicaoOrganizacao): Changes {
    Changes(
      None,
      TrimmedField(p.responsavel),
      TrimmedField(p.telefone),
      TrimmedField(p.email),
      if p.endereco.Some? then Some(NullIfBlank(Trim(p.endereco.value))) else None,
      if p.status.Some? then ParseStatus(p.status.value) else None)
  }

  /** The fields update collects once every check has passed. */
  function Collected(existing: Organizacao, p: EdicaoOrganizacao): Changes {
    PlainFields(p).(nome := Rename(existing, p))
  }

  function CollectChanges(rows: Table, existing: Organizacao, p: EdicaoOrganizacao, torneios: nat): Result<Changes, Erro> {
    match UpdateCheck(rows, existing, p, torneios)
    case Some(e) => Err(e)
    case None => Ok(Collected(existing, p))
  }

  /** The record after writing the collected fields. */
  function Apply(o: Organizacao, c: Changes): Organizacao {
    o.(nome := if c.nome.Some? then c.nome.value else o.nome,
       responsavel := if c.responsavel.Some? then c.responsavel.value else o.responsavel,
       telefone := if c.telefone.Some? then c.telefone.value else o.telefone,
       email := if c.email.Some? then c.email.value else o.email,
       endereco := if c.endereco.Some? then c.endereco.value else o.endereco,
       status := if c.status.Some? then c.status.value else o.status)
  }

  /** The outcome of update on table rows. */
  function UpdateResult(rows: Table, id: int, p: EdicaoOrganizacao, requesterRole: string, torneios: nat): (r: Result<Organizacao, Erro>)
    ensures requesterRole != "ADM" ==> r == Err(ApenasAdm)
    ensures requesterRole == "ADM" && id !in rows ==> r == Err(NaoEncontrada)
    ensures r.Ok? ==> requesterRole == "ADM" && id in rows
    ensures r.Ok? ==> r.value.id == rows[id].id && r.value.cnpj == rows[id].cnpj && r.value.createdAt == rows[id].createdAt
    ensures r.Ok? && p.responsavel.None? ==> r.value.responsavel == rows[id].responsavel
    ensures r.Ok? && p.telefone.None? ==> r.value.telefone == rows[id].telefone
    ensures r.Ok? && p.email.None? ==> r.value.email == rows[id].email
    ensures r.Ok? && p.endereco.None? ==> r.value.endereco == rows[id].endereco
    ensures r.Ok? && p.status.None? ==> r.value.status == rows[id].status
    ensures r.Ok? && p.nome.None? ==> r.value.nome == rows[id].nome
    ensures r.Ok? && p.nome.Some? ==> r.value.nome == Trim(p.nome.value)
    ensures r.Ok? && p.responsavel.Some? ==> r.value.responsavel == Trim(p.responsavel.value)
    ensures r.Ok? && p.telefone.Some? ==> r.value.telefone == Trim(p.telefone.value)
    ensures r.Ok? && p.email.Some? ==> r.value.email == Trim(p.email.value)
    ensures r.Ok? && p.endereco.Some? ==> r.value.endereco == NullIfBlank(Trim(p.endereco.value))
    ensures r.Ok? && p.status.Some? ==> StatusName(r.value.status) == ToUpper(p.status.value)
    ensures r.Ok? && r.value.nome != rows[id].nome ==>
              torneios == 0 && p.nome.Some? && r.value.nome == Trim(p.nome.value) && !NomeTaken(rows, r.value.nome)
  {
    if requesterRole != "ADM" then Err(ApenasAdm)
    else if id !in rows then Err(NaoEncontrada)
    else
      match CollectChanges(rows, rows[id], p, torneios)
      case Err(e) => Err(e)
      case Ok(c) => if c == NoChanges then Ok(rows[id]) else Ok(Apply(rows[id], c))
  }

  /**
   * Update fails exactly on the failing checks: a bad field (400), then a
   * rename while tournaments reference the organisation (400), then a name
   * that another organisation holds (409).
   */
  lemma {:induction false} UpdateFailures(rows: Table, id: int, p: EdicaoOrganizacao, torneios: nat)
    requires id in rows
    ensures var r := UpdateResult(rows, id, p, "ADM", torneios);
      && (!FieldsValid(p) ==> r.Err? && StatusCode(r.error) == 400)
      && (FieldsValid(p) && Rename(rows[id], p).Some? && torneios > 0 ==> r == Err(RenomeBloqueado))
      && (FieldsValid(p) && torneios == 0 && RenameTaken(rows, rows[id], p) ==> r == Err(NomeDuplicado))
      && (r.Ok? <==> FieldsValid(p) && (Rename(rows[id], p).Some? ==> torneios == 0 && !RenameTaken(rows, rows[id], p)))
  {
  }

  /** An update that sends no field, or only the current name, writes nothing, whatever the tournaments. */
  lemma {:induction false} UpdateWithoutChangesReturnsExisting(rows: Table, id: int, torneios: nat, nome: Option<string>)
    requires id in rows
    requires nome.None? || Trim(nome.value) == rows[id].nome
    requires rows[id].nome != []
    ensures UpdateResult(rows, id, EdicaoOrganizacao(nome, None, None, None, None, None), "ADM", torneios) == Ok(rows[id])
  {
  }

  /** A successful update keeps the table invariant, uniqueness of nome and cnpj included. */
  lemma {:induction false} UpdateKeepsInvariant(rows: Table, nextId: int, id: int, p: EdicaoOrganizacao, role: string, torneios: nat)
    requires TableInvariant(rows, nextId)
    requires UpdateResult(rows, id, p, role, torneios).Ok?
    ensures TableInvariant(rows[id := UpdateResult(rows, id, p, role, torneios).value], nextId)
  {
    assert rows[id].id == id;
    UpdateWellFormed(rows, id, p, role, torneios);
    ReplaceKeepsInvariant(rows, nextId, UpdateResult(rows, id, p, role, torneios).value);
  }

  /** A successful update of a well-formed record yields a well-formed record. */
  lemma {:induction false} UpdateWellFormed(rows: Table, id: int, p: EdicaoOrganizacao, role: string, torneios: nat)
    requires UpdateResult(rows, id, p, role, torneios).Ok?
    requires WellFormed(rows[id])
    ensures WellFormed(UpdateResult(rows, id, p, role, torneios).value)
  {
    var o := rows[id];
    assert UpdateCheck(rows, o, p, torneios).None?;
    if Collected(o, p) != NoChanges {
      CollectedWellFormed(o, p);
    }
  }

  /** The collected fields keep a well-formed record well-formed. */
  lemma {:induction false} CollectedWellFormed(o: Organizacao, p: EdicaoOrganizacao)
    requires WellFormed(o) && FieldsValid(p)
    ensures WellFormed(Apply(o, Collected(o, p)))
  {
    var c := Collected(o, p);
    if p.nome.Some? { TrimSpec(p.nome.value); }
    if p.responsavel.Some? { TrimSpec(p.responsavel.value); }
    if p.telefone.Some? { TrimSpec(p.telefone.value); }
    if p.endereco.Some? { TrimSpec(p.endereco.value); }
    ApplyWellFormed(o, c);
  }

  /** Writing values that obey the rules keeps a record well-formed. */
  lemma {:induction false} ApplyWellFormed(o: Organizacao, c: Changes)
    requires WellFormed(o)
    requires c.nome.Some? ==> Filled(c.nome.value)
    requires c.responsavel.Some? ==> Filled(c.responsavel.value)
    requires c.telefone.Some? ==> IsPhone(c.telefone.value) && Trimmed(c.telefone.value)
    requires c.email.Some? ==> IsEmail(c.email.value)
    requires c.endereco.Some? && c.endereco.value.Some? ==> Filled(c.endereco.value.value)
    ensures WellFormed(Apply(o, c))
  {
  }

  // ================================================================ delete

  /** The outcome of delete when dependants tournaments, teams and athletes depend on the organisation. */
  function DeleteResult(rows: Table, id: int, dependants: nat): (r: Result<Organizacao, Erro>)
    ensures id !in rows <==> r == Err(NaoEncontrada)
    ensures r.Ok? ==> r.value.id == rows[id].id && r.value.nome == rows[id].nome && r.value.cnpj == rows[id].cnpj
    ensures r.Ok? && dependants > 0 ==> r.value.status == Inativo
  {
    if id !in rows then Err(NaoEncontrada)
    else if dependants == 0 then Ok(rows[id])
    else if rows[id].status == Inativo then Ok(rows[id])
    else Ok(rows[id].(status := Inativo))
  }

  /** The table after delete. */
  function AfterDelete(rows: Table, id: int, dependants: nat): (rows': Table)
    ensures id in rows ==> (id in rows' <==> dependants > 0)
    ensures forall k :: k != id ==> (k in rows' <==> k in rows) && (k in rows ==> rows'[k] == rows[k])
  {
    if id !in rows then rows
    else if dependants == 0 then rows - {id}
    else if rows[id].status == Inativo then rows
    else rows[id := rows[id].(status := Inativo)]
  }

  /**
   * With dependants, delete only deactivates: the record stays, only its
   * status changes, and it is what delete returns.
   */
  lemma {:induction false} DeleteWithDependantsDeactivates(rows: Table, id: int, dependants: nat)
    requires id in rows && dependants > 0
    ensures AfterDelete(rows, id, dependants)[id] == rows[id].(status := Inativo)
    ensures DeleteResult(rows, id, dependants) == Ok(AfterDelete(rows, id, dependants)[id])
  {
  }

  /** Without dependants the record is removed, and a second delete finds nothing. */
  lemma {:induction false} DeleteWithoutDependantsRemoves(rows: Table, id: int, dependants: nat)
    requires id in rows
    ensures DeleteResult(rows, id, 0) == Ok(rows[id])
    ensures id !in AfterDelete(rows, id, 0)
    ensures DeleteResult(AfterDelete(rows, id, 0), id, dependants) == Err(NaoEncontrada)
  {
  }

  /** Deleting twice with dependants has the effect and result of deleting once. */
  lemma {:induction false} DeleteIdempotent(rows: Table, id: int, dependants: nat)
    requires dependants > 0
    ensures AfterDelete(AfterDelete(rows, id, dependants), id, dependants) == AfterDelete(rows, id, dependants)
    ensures DeleteResult(AfterDelete(rows, id, dependants), id, dependants) == DeleteResult(rows, id, dependants)
  {
    if id in rows && rows[id].status != Inativo {
      var rows' := AfterDelete(rows, id, dependants);
      assert rows'[id := rows'[id].(status := Inativo)] == rows';
    }
  }

  lemma {:induction false} DeleteKeepsInvariant(rows: Table, nextId: int, id: int, dependants: nat)
    requires TableInvariant(rows, nextId)
    ensures TableInvariant(AfterDelete(rows, id, dependants), nextId)
  {
    if id in rows && dependants == 0 {
      var rows' := rows - {id};
      assert IdsConsistent(rows', nextId);
      assert UniqueKeys(rows') by {
        forall a, b | a in rows' && b in rows' && a != b
          ensures rows'[a].nome != rows'[b].nome && rows'[a].cnpj != rows'[b].cnpj
        {
          assert rows'[a] == rows[a] && rows'[b] == rows[b];
        }
      }
    } else if id in rows && rows[id].status != Inativo {
      ReplaceKeepsInvariant(rows, nextId, rows[id].(status := Inativo));
    }
  }

  /**
   * The field-by-field part of updateOrganizacao: each field sent is checked
   * and, when it passes, added to the data to write, in the service's order.
   */
  method CollectFields(rows: Table, existing: Organizacao, p: EdicaoOrganizacao, torneios: nat) returns (res: Result<Changes, Erro>)
    ensures res == CollectChanges(rows, existing, p, torneios)
    ensures res.Ok? ==> FieldsValid(p)
  {
    var data := CollectPlainFields(p);
    if data.Err? {
      return data;
    }
    res := CollectNome(rows, existing, p, torneios, data.value);
  }

  /** responsavel, email, telefone, endereco and status, in that order. */
  method CollectPlainFields(p: EdicaoOrganizacao) returns (res: Result<Changes, Erro>)
    ensures FieldCheck(p).Some? ==> res == Err(FieldCheck(p).value)
    ensures FieldCheck(p).None? ==> res == Ok(PlainFields(p))
  {
    var data := NoChanges;
    if p.responsavel.Some? {
      var v := Trim(p.responsavel.value);
      if v == [] { return Err(ResponsavelVazio); }
      data := data.(responsavel := Some(v));
    }
    assert ResponsavelOk(p);
    assert data == NoChanges.(responsavel := TrimmedField(p.responsavel));
    if p.email.Some? {
      var v := Trim(p.email.value);
      if v == [] || !IsEmail(v) { return Err(EmailInvalido); }
      data := data.(email := Some(v));
    }
    assert EmailOk(p);
    assert data == NoChanges.(responsavel := TrimmedField(p.responsavel), email := TrimmedField(p.email));
    if p.telefone.Some? {
      var v := Trim(p.telefone.value);
      if v == [] || !IsPhone(v) { return Err(TelefoneInvalido); }
      data := data.(telefone := Some(v));
    }
    assert TelefoneOk(p);
    ghost var checked := NoChanges.(responsavel := TrimmedField(p.responsavel), email := TrimmedField(p.email),
                                    telefone := TrimmedField(p.telefone));
    assert data == checked;
    if p.endereco.Some? {
      var v := Trim(p.endereco.value);
      data := data.(endereco := Some(if v == [] then None else Some(v)));
    }
    checked := checked.(endereco := PlainFields(p).endereco);
    assert data == checked;
    if p.status.Some? {
      var st := ParseStatus(p.status.value);
      if st.None? {
        assert FieldCheck(p) == Some(StatusInvalido);
        return Err(StatusInvalido);
      }
      data := data.(status := st);
    }
    assert StatusOk(p) && FieldCheck(p).None?;
    assert data == PlainFields(p);
    res := Ok(data);
  }

  /** The name, checked last: blank, renamed while tournaments exist, or taken. */
  method CollectNome(rows: Table, existing: Organizacao, p: EdicaoOrganizacao, torneios: nat, data: Changes) returns (res: Result<Changes, Erro>)
    requires data.nome.None?
    ensures NomeCheck(rows, existing, p, torneios).Some? ==> res == Err(NomeCheck(rows, existing, p, torneios).value)
    ensures NomeCheck(rows, existing, p, torneios).None? ==> res == Ok(data.(nome := Rename(existing, p)))
  {
    res := Ok(data);
    if p.nome.Some? {
      var novoNome := Trim(p.nome.value);
      if novoNome == [] { return Err(NomeVazio); }
      if novoNome != existing.nome {
        assert Rename(existing, p) == Some(novoNome);
        if torneios > 0 { return Err(RenomeBloqueado); }
        if NomeTaken(rows, novoNome) { return Err(NomeDuplicado); }
        res := Ok(data.(nome := Some(novoNome)));
      }
    }
  }

  // ================================================================ the service

  class OrganizacaoService {
    var rows: Table
    var nextId: int

    ghost predicate Valid()
      reads this
    {
      TableInvariant(rows, nextId)
    }

    constructor ()
      ensures Valid() && rows == map[]
    {
      rows := map[];
      nextId := 1;
    }

    /** createOrganizacao */
    method Create(p: NovaOrganizacao, now: int) returns (r: Result<Organizacao, Erro>)
      requires Valid()
      modifies this
      ensures Valid()
      ensures r == CreateResult(old(rows), old(nextId), now, p)
      ensures r.Ok? ==> rows == old(rows)[r.value.id := r.value] && nextId == old(nextId) + 1
      ensures r.Err? ==> rows == old(rows) && nextId == old(nextId)
    {
      var nome := Trim(p.nome);
      var cnpj := Trim(p.cnpj);
      var responsavel := Trim(p.responsavel);
      var telefone := Trim(p.telefone);
      var email := Trim(p.email);
      var endereco := Trim(p.endereco);

      if nome == [] { return Err(NomeObrigatorio); }
      if cnpj == [] { return Err(CnpjObrigatorio); }
      if !IsCnpj(cnpj) { return Err(CnpjInvalido); }
      if responsavel == [] { return Err(ResponsavelObrigatorio); }
      if telefone == [] || !IsPhone(telefone) { return Err(TelefoneInvalido); }
      if email == [] || !IsEmail(email) { return Err(EmailInvalido); }

      if NomeTaken(rows, nome) { return Err(NomeDuplicado); }
      if CnpjTaken(rows, cnpj) { return Err(CnpjDuplicado); }

      var created := Organizacao(nextId, nome, cnpj, responsavel, telefone, email,
                                 if endereco == [] then None else Some(endereco), Ativo, now);
      assert FirstShapeError(p).None?;
      assert created == NewRecord(nextId, now, p);
      assert CreateResult(rows, nextId, now, p) == Ok(created);
      NewRecordWellFormed(nextId, now, p);
      StoreInsert(created);
      r := Ok(created);
    }

    /** The store's insert: the record takes the next id. */
    method StoreInsert(created: Organizacao)
      requires Valid()
      requires created.id == nextId && WellFormed(created)
      requires !NomeTaken(rows, created.nome) && !CnpjTaken(rows, created.cnpj)
      modifies this
      ensures Valid()
      ensures rows == old(rows)[created.id := created] && nextId == old(nextId) + 1
    {
      InsertKeepsInvariant(rows, nextId, created);
      rows := rows[nextId := created];
      nextId := nextId + 1;
    }

    /** The store's update of one record, cnpj and id unchanged. */
    method StoreUpdate(updated: Organizacao)
      requires Valid()
      requires updated.id in rows && WellFormed(updated) && updated.cnpj == rows[updated.id].cnpj
      requires updated.nome != rows[updated.id].nome ==> !NomeTaken(rows, updated.nome)
      modifies this
      ensures Valid()
      ensures rows == old(rows)[updated.id := updated] && nextId == old(nextId)
    {
      ReplaceKeepsInvariant(rows, nextId, updated);
      rows := rows[updated.id := updated];
    }

    /** getOrganizacaoById */
    function Get(id: int): (r: Option<Organizacao>)
      reads this
      requires Valid()
      ensures r.Some? <==> id in rows
      ensures r.Some? ==> r.value == rows[id] && r.value.id == id && WellFormed(r.value)
    {
      if id in rows then Some(rows[id]) else None
    }

    /** listOrganizacoes: the matching records, in the requested order. */
    function List(f: Filtros): (r: seq<Organizacao>)
      reads this
      requires Valid()
      ensures forall o :: o in r <==> o in rows.Values && Selected(f, o)
      ensures SortedBy(RequestedOrder(f), r)
      ensures forall i, j :: 0 <= i < j < |r| ==> r[i].id != r[j].id
    {
      ListingSelects(rows, nextId, f);
      Sort(RequestedOrder(f), Select(BuildQuery(f), RowsBetween(rows, 1, nextId)))
    }

    /** updateOrganizacao: the collected fields are written in one step, and nothing is written when none was collected. */
    method Update(id: int, p: EdicaoOrganizacao, requesterRole: string, torneios: nat) returns (r: Result<Organizacao, Erro>)
      requires Valid()
      modifies this
      ensures Valid() && nextId == old(nextId)
      ensures r == UpdateResult(old(rows), id, p, requesterRole, torneios)
      ensures r.Ok? ==> rows == old(rows)[id := r.value]
      ensures r.Err? ==> rows == old(rows)
    {
      if requesterRole != "ADM" { return Err(ApenasAdm); }
      if id !in rows { return Err(NaoEncontrada); }
      var existing := rows[id];

      var collected := CollectFields(rows, existing, p, torneios);
      if collected.Err? { return Err(collected.error); }
      var data := collected.value;
      if data == NoChanges { return Ok(existing); }

      var updated := Apply(existing, data);
      assert UpdateResult(rows, id, p, requesterRole, torneios) == Ok(updated);
      UpdateWellFormed(rows, id, p, requesterRole, torneios);
      StoreUpdate(updated);
      r := Ok(updated);
    }

    /** deleteOrganizacao: the three dependency counts are summed. */
    method Delete(id: int, torneios: nat, equipes: nat, atletas: nat) returns (r: Result<Organizacao, Erro>)
      requires Valid()
      modifies this
      ensures Valid() && nextId == old(nextId)
      ensures r == DeleteResult(old(rows), id, torneios + equipes + atletas)
      ensures rows == AfterDelete(old(rows), id, torneios + equipes + atletas)
    {
      if id !in rows { return Err(NaoEncontrada); }
      var org := rows[id];
      DeleteKeepsInvariant(rows, nextId, id, torneios + equipes + atletas);

      var hasDeps := torneios + equipes + atletas > 0;
      if !hasDeps {
        rows := rows - {id};
        return Ok(org);
      }

      if org.status == Inativo { return Ok(org); }
      var updated := org.(status := Inativo);
      rows := rows[id := updated];
      r := Ok(updated);
    }
  }

  /** The listing of the stored records under the filters f: exactly the selected records, sorted, without repetition. */
  lemma {:induction false} ListingSelects(rows: Table, nextId: int, f: Filtros)
    requires IdsConsistent(rows, nextId)
    ensures var r := Sort(RequestedOrder(f), Select(BuildQuery(f), RowsBetween(rows, 1, nextId)));
      && (forall o :: o in r <==> o in rows.Values && Selected(f, o))
      && SortedBy(RequestedOrder(f), r)
      && (forall i, j :: 0 <= i < j < |r| ==> r[i].id != r[j].id)
  {
    var all := RowsBetween(rows, 1, nextId);
    var r := Sort(RequestedOrder(f), Select(BuildQuery(f), all));
    ListingMembers(rows, nextId, f);
    RowsBetweenSpec(rows, 1, nextId);
    SelectionIdsDistinct(all, r);
  }

  lemma {:induction false} ListingMembers(rows: Table, nextId: int, f: Filtros)
    requires IdsConsistent(rows, nextId)
    ensures forall o :: o in Sort(RequestedOrder(f), Select(BuildQuery(f), RowsBetween(rows, 1, nextId))) <==> o in rows.Values && Selected(f, o)
  {
    var q := BuildQuery(f);
    var all := RowsBetween(rows, 1, nextId);
    var matching := Select(q, all);
    var r := Sort(q.orderBy, matching);
    RowsBetweenAll(rows, nextId);
    forall o ensures o in r <==> o in rows.Values && Selected(f, o) {
      QueryMatchesFilters(f, o);
      assert o in r <==> o in multiset(r);
      assert o in matching <==> o in multiset(matching);
    }
  }

  /** The records under ids 1 .. nextId-1 are all the stored records. */
  lemma {:induction false} RowsBetweenAll(rows: Table, nextId: int)
    requires IdsConsistent(rows, nextId)
    ensures forall o :: o in RowsBetween(rows, 1, nextId) <==> o in rows.Values
  {
    var all := RowsBetween(rows, 1, nextId);
    RowsBetweenSpec(rows, 1, nextId);
    forall o | o in rows.Values
      ensures o in all
    {
      assert exists id :: id in rows && rows[id] == o;
      var id :| id in rows && rows[id] == o;
      assert 1 <= id < nextId;
    }
    forall o | o in all
      ensures o in rows.Values
    {
      var i :| 0 <= i < |all| && all[i] == o;
      assert all[i].id in rows && rows[all[i].id] == all[i];
    }
  }

  /** Records drawn without repetition from a sequence with increasing ids have distinct ids. */
  lemma {:induction false} SelectionIdsDistinct(all: seq<Organizacao>, r: seq<Organizacao>)
    requires IdsIncreasing(all)
    requires multiset(r) <= multiset(all)
    ensures forall i, j :: 0 <= i < j < |r| ==> r[i].id != r[j].id
  {
    assert Distinct(all);
    SubMultisetDistinct(all, r);
    forall i, j | 0 <= i < j < |r|
      ensures r[i].id != r[j].id
    {
      assert r[i] in multiset(all) && r[j] in multiset(all);
      var k :| 0 <= k < |all| && all[k] == r[i];
      var m :| 0 <= m < |all| && all[m] == r[j];
      assert r[i] != r[j];
    }
  }
}
