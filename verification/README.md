# Versus: organisations, users and route guards, modelled in Dafny

Versus is a sports-tournament platform. Its back end is a Node/Express service over a Prisma store; its front end is React. This project models the parts that decide what is stored and who may do what:

- **organisation service** (`organizacao.service.js`): create, list, get, update and delete organisations. Each write runs through the service's own field checks, uniqueness checks and dependency rules.
- **user service** (`usuario.service.js`):
  - create a user together with its first profile (*perfil*), under the requester-role rules;
  - log in, with a failed-attempt counter and a fifteen-minute lock;
  - list active users.
- **auth middleware** (`auth.middleware.js`): extracts the bearer token from the `Authorization` header, then checks the role the token carries.
- **organisation form** (`OrganizacaoFormPage.jsx`): the CNPJ and phone masks applied while typing, the form's validators, and the order in which the submit handler reports the first failed check.

Module layout, one module per file:

- **Outcomes**: `Option`, `Result`, and the `ServiceError` shape with its default status 400.
- **Text**: JavaScript `trim`, ASCII case mapping, `replace(/\D/g, '')`, `substring`, and code-point order.
- **Validators**: the back end's regular expressions as predicates (e-mail, CNPJ, phone, password).
- **Sequences**: facts about sequences without repeats.
- **OrganizacaoForm**, **Organizacoes**, **Usuarios**, **AuthMiddleware**: the four core files.

Each service is a class. Its fields are the store's tables (`map<int, …>` keyed by id) and the next id to hand out. Each method is proved against a pure function of the old state: `CreateResult`, `UpdateResult`, `DeleteResult`/`AfterDelete`, `Authentication`. The properties the services promise are lemmas about those functions, plus the class invariant `Valid()`.

Some inputs are outside the model's reach. They are passed in as parameters:

- the password hasher and comparer (`senhaHash`, `compare`);
- the JWT signer and verifier (`sign`, `verify`);
- the clock (`now`, in milliseconds);
- the dependency counts the store computes (tournaments, teams, athletes);
- the teams table the user rules consult (`equipes`).

Behaviour of `usuario.service.js` worth knowing:

- `listUsuarios` (lines 185-210) always filters on status `ativo` and never looks at the requester. An administrator cannot list inactive users.
- The service has no user update operation, so none is modelled.
- Login (lines 114-179) does not refuse a user whose status is `inativo`.
- The 409 pre-check (line 35) looks up the e-mail as sent, not the normalised one. An e-mail that differs from a registered one only in letter case therefore gets past it, and the store's unique index on `email` refuses the insert instead (Usuarios.CaseVariantEmailReachesStore). That index is part of the database schema, which is not part of this model. Its refusal is modelled as an error of status 400, the default for an error without a status.

## Model

| member | source | states |
|---|---|---|
| Text.Trim | Backend/src/services/organizacao.service.js:24-29 | `trim` never lengthens a string |
| Text.TrimSpec | Backend/src/services/organizacao.service.js:24-31 | trim yields "" exactly for all-white-space input; it leaves no white space at either end; a string without white space is unchanged |
| Text.TrimStartSpec | Backend/src/services/organizacao.service.js:24-29 | the front part `trim` removes is all white space, and what remains does not start with white space |
| Text.TrimEndSpec | Backend/src/services/organizacao.service.js:24-29 | the back part `trim` removes is all white space, and what remains does not end with white space |
| Text.TrimIdempotent | Backend/src/services/organizacao.service.js:24-29 | trimming twice is trimming once |
| Text.TrimmedIsFixpoint | Backend/src/services/organizacao.service.js:24-29 | a string with no white space at either end is its own trim |
| Text.ToLower | Backend/src/services/usuario.service.js:70 | `toLowerCase` keeps the length (its effect on letters is stated by Text.ToLowerNoUpper) |
| Text.ToLowerNoUpper | Backend/src/services/usuario.service.js:70 | a lower-cased string holds no upper-case letter |
| Text.ToUpper | Backend/src/services/organizacao.service.js:118 | `toUpperCase` keeps the length |
| Text.LexLeTotal | Backend/src/services/usuario.service.js:204-206 | the name order compares any two names |
| Text.LexLeTransitive | Backend/src/services/usuario.service.js:204-206 | the name order is transitive |
| Text.Digits | Frontend/versus-app/src/pages/OrganizacaoFormPage.jsx:78 | stripping non-digits never lengthens the input |
| Text.DigitsAreDigits | Frontend/versus-app/src/pages/OrganizacaoFormPage.jsx:78 | what `replace(/\D/g, '')` keeps is digits only |
| Text.Take | Frontend/versus-app/src/pages/OrganizacaoFormPage.jsx:81 | `substring(0, n)` is the prefix of length min(n, length) |
| Text.DigitsAppend | Frontend/versus-app/src/pages/OrganizacaoFormPage.jsx:78 | the digits of a concatenation are the concatenated digits |
| Text.DigitsOfDigits | Frontend/versus-app/src/pages/OrganizacaoFormPage.jsx:78 | a string of digits is its own digit string |
| Text.DigitsOfNonDigits | Frontend/versus-app/src/pages/OrganizacaoFormPage.jsx:78 | a string without digits has none to keep |
| Text.DigitsInsert | Frontend/versus-app/src/pages/OrganizacaoFormPage.jsx:86-95 | inserting non-digit separators leaves the digits unchanged |
| Validators.EmailDecomposition | Backend/src/services/organizacao.service.js:4 | the e-mail expression accepts exactly local + "@" + domain + "." + tld, each piece non-empty and free of '@' and white space |
| Validators.EmailSplits | Backend/src/services/organizacao.service.js:4 | an accepted e-mail splits into those pieces |
| Validators.EmailJoins | Backend/src/services/organizacao.service.js:4 | joining such pieces gives an accepted e-mail |
| Validators.EmailHasNoSpace | Backend/src/services/usuario.service.js:6 | an accepted e-mail has no white space, so trimming it changes nothing |
| Validators.EmailLowerCase | Backend/src/services/usuario.service.js:70 | lower-casing an accepted e-mail keeps it accepted |
| Validators.MaskedPhoneAccepted | Backend/src/services/organizacao.service.js:6 | "(11) 99999-9999" matches the phone expression |
| Validators.BarePhoneAccepted | Backend/src/services/organizacao.service.js:6 | eleven bare digits match the phone expression |
| Validators.ShortPhoneRejected | Backend/src/services/organizacao.service.js:6 | a mobile number one digit short, "(11) 99999-999", is refused |
| Validators.PasswordExamples | Backend/src/services/usuario.service.js:7 | letters and digits of length 8 or more pass; letters only, or fewer than 8 characters, fail |
| OrganizacaoForm.InsertAt | Frontend/versus-app/src/pages/OrganizacaoFormPage.jsx:86 | `substring(0,p) + sep + substring(p)`: each character lands at its shifted position |
| OrganizacaoForm.InsertKeepsDigits | Frontend/versus-app/src/pages/OrganizacaoFormPage.jsx:86-95 | inserting a separator keeps the digits |
| OrganizacaoForm.LeadingDigits | Frontend/versus-app/src/pages/OrganizacaoFormPage.jsx:78-81 | the limited input is all digits and at most n long |
| OrganizacaoForm.InsertCnpjSeparator | Frontend/versus-app/src/pages/OrganizacaoFormPage.jsx:86-95 | inserting a CNPJ separator keeps the digits and adds only separators |
| OrganizacaoForm.MaskCnpjKeepsDigits | Frontend/versus-app/src/pages/OrganizacaoFormPage.jsx:84-98 | the CNPJ mask keeps exactly the given digits, in order, and adds only '.', '/' and '-' |
| OrganizacaoForm.FormatCnpjKeepsDigits | Frontend/versus-app/src/pages/OrganizacaoFormPage.jsx:76-99 | formatCNPJ keeps exactly the first 14 digits typed |
| OrganizacaoForm.MaskCnpjFull | Frontend/versus-app/src/pages/OrganizacaoFormPage.jsx:83-98 | with 14 digits the mask is NN.NNN.NNN/NNNN-NN, character by character |
| OrganizacaoForm.FormatCnpjMatchesBackend | Frontend/versus-app/src/pages/OrganizacaoFormPage.jsx:76-99 | with at least 14 digits typed, the formatted CNPJ passes the back end's CNPJ expression |
| OrganizacaoForm.FormatCnpjIdempotent | Frontend/versus-app/src/pages/OrganizacaoFormPage.jsx:101-104 | formatting a formatted CNPJ changes nothing |
| OrganizacaoForm.CnpjDigitsAreDigits | Backend/src/services/organizacao.service.js:5 | the characters of a back-end CNPJ outside the separator positions are its 14 digits |
| OrganizacaoForm.CnpjRemasked | Frontend/versus-app/src/pages/OrganizacaoFormPage.jsx:83-98 | masking the 14 digits of a back-end CNPJ rebuilds it exactly |
| OrganizacaoForm.FormatCnpjFixesBackendFormat | Frontend/versus-app/src/pages/OrganizacaoFormPage.jsx:76-99 | a CNPJ already in the back-end format is left as it is |
| OrganizacaoForm.ValidateFormattedCnpj | Frontend/versus-app/src/pages/OrganizacaoFormPage.jsx:135-138 | validateCNPJ accepts a formatted value exactly when 14 digits were typed |
| OrganizacaoForm.MaskTelefoneKeepsDigits | Frontend/versus-app/src/pages/OrganizacaoFormPage.jsx:115-126 | the phone mask keeps exactly the given digits |
| OrganizacaoForm.FormatTelefoneShape | Frontend/versus-app/src/pages/OrganizacaoFormPage.jsx:107-121 | formatTelefone keeps the first 11 digits; the result is non-empty iff a digit was typed, opens with '(', and has ") " after the second digit once there is a third |
| OrganizacaoForm.FormatTelefoneHyphen | Frontend/versus-app/src/pages/OrganizacaoFormPage.jsx:122-124 | a hyphen appears, at position 10, exactly when more than 7 digits were typed |
| OrganizacaoForm.PhoneLayoutAccepted | Backend/src/services/organizacao.service.js:6 | a complete mask is accepted by the back end iff 4 or 5 digits come before the hyphen and 4 after it |
| OrganizacaoForm.MaskTelefoneLayout | Frontend/versus-app/src/pages/OrganizacaoFormPage.jsx:115-124 | with more than 7 digits the mask is "(DD) " + digits + "-" + digits, with the hyphen at position 10 |
| OrganizacaoForm.HyphenatedLayout | Frontend/versus-app/src/pages/OrganizacaoFormPage.jsx:116-124 | "(" in front, ") " after the second digit and "-" at position k give the complete phone layout |
| OrganizacaoForm.FormatTelefoneElevenDigits | Frontend/versus-app/src/pages/OrganizacaoFormPage.jsx:107-127 | 11 digits are formatted as (DD) DDDDD-DDDD, which the back end accepts |
| OrganizacaoForm.FormatTelefoneIdempotent | Frontend/versus-app/src/pages/OrganizacaoFormPage.jsx:129-132 | formatting a formatted phone number changes nothing |
| OrganizacaoForm.FormatTelefoneTenDigitsRejected | Frontend/versus-app/src/pages/OrganizacaoFormPage.jsx:122-124 | as written, 10 digits pass the form's check but the formatted value is refused by the back end |
| OrganizacaoForm.MaskTelefoneFixedKeepsDigits | Frontend/versus-app/src/pages/OrganizacaoFormPage.jsx:114 | the corrected mask keeps exactly the given digits |
| OrganizacaoForm.FormatTelefoneFixedIdempotent | Frontend/versus-app/src/pages/OrganizacaoFormPage.jsx:114 | the corrected formatter is idempotent |
| OrganizacaoForm.MaskTelefoneFixedLayout | Frontend/versus-app/src/pages/OrganizacaoFormPage.jsx:114 | with 10 or 11 digits the corrected mask puts the hyphen before the last four digits |
| OrganizacaoForm.FormatTelefoneFixedMatchesBackend | Frontend/versus-app/src/pages/OrganizacaoFormPage.jsx:114 | every 10- or 11-digit number the corrected mask produces is accepted by the back end |
| OrganizacaoForm.ValidateFormattedTelefone | Frontend/versus-app/src/pages/OrganizacaoFormPage.jsx:147-150 | validateTelefone accepts a formatted value exactly when at least 10 digits were typed |
| OrganizacaoForm.SubmitError | Frontend/versus-app/src/pages/OrganizacaoFormPage.jsx:152-196 | the form is sent (no error) iff every field is filled and the CNPJ, phone and e-mail checks pass |
| OrganizacaoForm.SubmitReportsFirstFailure | Frontend/versus-app/src/pages/OrganizacaoFormPage.jsx:157-196 | the CNPJ, phone and e-mail "invalid" messages are each reported iff every earlier check passed, their field is filled and its own check fails |
| OrganizacaoForm.SubmitReportsFirstMissing | Frontend/versus-app/src/pages/OrganizacaoFormPage.jsx:157-196 | each "is required" message (nome, CNPJ, responsável, telefone, e-mail) is reported iff every earlier check passed and its field is blank |
| OrganizacaoForm.BlankHasNoDigits | Frontend/versus-app/src/pages/OrganizacaoFormPage.jsx:178-186 | a blank field holds no digit, so a blank phone is always reported as missing, never as malformed |
| Organizacoes.ParseStatusNames | Backend/src/services/organizacao.service.js:117-120 | a status string parses to st iff its upper-case form is st's name |
| Organizacoes.StatusCode | Backend/src/services/organizacao.service.js:8-13 | every error of the service is a 4xx |
| Organizacoes.StatusCodeAnswered | Backend/src/services/organizacao.service.js:8-13 | the controllers answer each thrown error with that error's status code |
| Organizacoes.InsertKeepsInvariant | Backend/src/services/organizacao.service.js:44-46 | storing a well-formed record with free keys under the next id keeps the table invariant |
| Organizacoes.ReplaceKeepsInvariant | Backend/src/services/organizacao.service.js:138 | replacing a record, with its id and cnpj kept and any new name free, keeps the invariant |
| Organizacoes.ReplaceKeepsUnique | Backend/src/services/organizacao.service.js:127-132 | that replacement keeps nome and cnpj unique |
| Organizacoes.FirstShapeError | Backend/src/services/organizacao.service.js:31-36 | no error iff every trimmed field is filled and the CNPJ, phone and e-mail expressions accept |
| Organizacoes.ShapeErrorOrder | Backend/src/services/organizacao.service.js:31-36 | each of the six messages is reported iff every earlier check passed and its own check fails |
| Organizacoes.CreateResult | Backend/src/services/organizacao.service.js:23-48 | create fails iff a field check fails or the name or CNPJ is taken; the stored record has status ATIVO |
| Organizacoes.NewRecordWellFormed | Backend/src/services/organizacao.service.js:44-46 | a record that passed the checks is well-formed |
| Organizacoes.CreateStoresTrimmedPayload | Backend/src/services/organizacao.service.js:24-46 | the stored record is the trimmed payload; endereco is null when blank |
| Organizacoes.CreateErrorStatus | Backend/src/services/organizacao.service.js:31-42 | a field of the wrong shape gives 400, and a taken name or CNPJ gives 409 |
| Organizacoes.CreateNomeConflictFirst | Backend/src/services/organizacao.service.js:39-42 | a duplicate name is reported before the CNPJ is looked up |
| Organizacoes.CreateKeepsInvariant | Backend/src/services/organizacao.service.js:23-48 | a successful create keeps nome and cnpj unique and every record well-formed |
| Organizacoes.SecondCreateConflicts | Backend/src/services/organizacao.service.js:39-42 | after one create, a second with the same nome or cnpj fails with 409 |
| Organizacoes.BeforeTotal | Backend/src/services/organizacao.service.js:62-65 | both listing orders compare any two records |
| Organizacoes.BeforeTransitive | Backend/src/services/organizacao.service.js:62-65 | both listing orders are transitive |
| Organizacoes.RowsBetweenSpec | Backend/src/services/organizacao.service.js:67 | the store's scan holds each stored record of the id range once, by increasing id |
| Organizacoes.Select | Backend/src/services/organizacao.service.js:55-60 | the selection holds exactly the input records the query matches, none more often than in the input |
| Organizacoes.InsertSorted | Backend/src/services/organizacao.service.js:62-67 | inserting into a sorted list adds the record and keeps the list sorted |
| Organizacoes.Sort | Backend/src/services/organizacao.service.js:62-67 | orderBy returns a sorted permutation of its input |
| Organizacoes.QueryMatchesFilters | Backend/src/services/organizacao.service.js:55-60 | a record matches the query iff it contains each given text filter (ignoring case) and has the status a valid status filter names; an invalid status filter is ignored |
| Organizacoes.RequestedOrder | Backend/src/services/organizacao.service.js:62-65 | createdAt descending iff the order filter, lower-cased, is "createdat"; nome ascending otherwise |
| Organizacoes.UpdateCheck | Backend/src/services/organizacao.service.js:98-134 | no error only when every field sent passes its check and any rename happens without tournaments and to a free name |
| Organizacoes.UpdateResult | Backend/src/services/organizacao.service.js:89-140 | 403 unless ADM, then 404 when missing; a success keeps id, cnpj and createdAt, changes no field that was not sent, writes each sent responsavel, telefone and e-mail trimmed, a sent endereco trimmed and null when blank, a sent status as the one its upper-case form names, writes a sent name trimmed, and a changed name is free and allowed only without tournaments |
| Organizacoes.UpdateFailures | Backend/src/services/organizacao.service.js:98-134 | a malformed field gives 400; a rename gives 400 while tournaments exist and 409 when another organisation holds the name; update succeeds iff every check passes |
| Organizacoes.UpdateWithoutChangesReturnsExisting | Backend/src/services/organizacao.service.js:124-136 | an update sending nothing, or only the current name, writes nothing and returns the existing record |
| Organizacoes.UpdateKeepsInvariant | Backend/src/services/organizacao.service.js:89-140 | a successful update keeps nome and cnpj unique and every record well-formed |
| Organizacoes.UpdateWellFormed | Backend/src/services/organizacao.service.js:97-138 | an updated record is well-formed |
| Organizacoes.CollectedWellFormed | Backend/src/services/organizacao.service.js:97-134 | the collected fields keep a well-formed record well-formed |
| Organizacoes.ApplyWellFormed | Backend/src/services/organizacao.service.js:138 | writing values that obey the rules keeps a record well-formed |
| Organizacoes.DeleteResult | Backend/src/services/organizacao.service.js:148-167 | 404 iff the id is missing; otherwise the record (same id, nome and cnpj), with status INATIVO when something depends on it |
| Organizacoes.AfterDelete | Backend/src/services/organizacao.service.js:158-166 | without dependants the id is removed, with dependants it stays; every other record is untouched |
| Organizacoes.DeleteWithDependantsDeactivates | Backend/src/services/organizacao.service.js:164-166 | with dependants the record stays, with status INATIVO, and is returned |
| Organizacoes.DeleteWithoutDependantsRemoves | Backend/src/services/organizacao.service.js:159-162 | without dependants the record is removed, and a second delete answers 404 |
| Organizacoes.DeleteIdempotent | Backend/src/services/organizacao.service.js:164 | deleting twice with dependants has the effect and result of deleting once |
| Organizacoes.DeleteKeepsInvariant | Backend/src/services/organizacao.service.js:148-167 | delete keeps the table invariant |
| Organizacoes.CollectFields | Backend/src/services/organizacao.service.js:97-134 | the field-by-field pass yields CollectChanges: the first failed check's error, or the fields to write; success means every field sent is valid |
| Organizacoes.CollectPlainFields | Backend/src/services/organizacao.service.js:98-121 | responsavel, email, telefone, endereco and status are checked and collected in that order |
| Organizacoes.CollectNome | Backend/src/services/organizacao.service.js:124-134 | the name is checked last and collected only when it changes |
| Organizacoes.ListingSelects | Backend/src/services/organizacao.service.js:54-69 | the listing holds exactly the stored records the filters select, sorted in the requested order, each once |
| Organizacoes.ListingMembers | Backend/src/services/organizacao.service.js:55-67 | a stored record is listed iff the filters select it |
| Organizacoes.RowsBetweenAll | Backend/src/services/organizacao.service.js:67 | the scan of ids 1 .. nextId-1 reaches every stored record |
| Organizacoes.SelectionIdsDistinct | Backend/src/services/organizacao.service.js:67 | a listing drawn from the scan repeats no id |
| Organizacoes.OrganizacaoService.constructor | Backend/src/services/organizacao.service.js:1 | the store starts empty and valid |
| Organizacoes.OrganizacaoService.Create | Backend/src/services/organizacao.service.js:23-48 | returns CreateResult; stores the record under the next id on success, nothing on failure; keeps the invariant |
| Organizacoes.OrganizacaoService.StoreInsert | Backend/src/services/organizacao.service.js:44-46 | the new record is stored under the next id |
| Organizacoes.OrganizacaoService.StoreUpdate | Backend/src/services/organizacao.service.js:138 | the record under its id is replaced, and nothing else changes |
| Organizacoes.OrganizacaoService.Get | Backend/src/services/organizacao.service.js:74-77 | the record stored under id, or nothing |
| Organizacoes.OrganizacaoService.List | Backend/src/services/organizacao.service.js:54-69 | exactly the selected records, sorted as requested, with no id repeated |
| Organizacoes.OrganizacaoService.Update | Backend/src/services/organizacao.service.js:89-140 | returns UpdateResult; on success the returned record is what is stored under id, on failure nothing changes; keeps the invariant |
| Organizacoes.OrganizacaoService.Delete | Backend/src/services/organizacao.service.js:148-167 | sums the three dependency counts; returns DeleteResult and leaves AfterDelete; keeps the invariant |
| Usuarios.ParsePapelNames | Backend/src/services/usuario.service.js:28 | a papel string is accepted iff it is exactly ADM, ORG or TEC |
| Usuarios.StatusCode | Backend/src/services/usuario.service.js:9-14 | every error of the service is a 4xx |
| Usuarios.StatusCodeAnswered | Backend/src/services/usuario.service.js:9-14 | the controllers answer each thrown error with that error's status code |
| Usuarios.CredentialMessagesAlike | Backend/src/services/usuario.service.js:119-141 | a malformed login and a refused one carry the same message, with statuses 400 and 401; the unique-index refusal is a 400 |
| Usuarios.FieldError | Backend/src/services/usuario.service.js:25-28 | no error iff nome is filled, the e-mail and password expressions accept, and papel is known |
| Usuarios.RuleError | Backend/src/services/usuario.service.js:38-57 | no error iff ORG is created by ADM, TEC has a team, and an ORG creating a TEC names its organisation, whose team it is |
| Usuarios.CreateCheck | Backend/src/services/usuario.service.js:24-57 | no error iff the fields pass, a requester role is given, the e-mail as sent is free, and the rules pass |
| Usuarios.CreateResult | Backend/src/services/usuario.service.js:21-105 | create succeeds iff the checks pass and the store's unique index accepts the normalised e-mail |
| Usuarios.CreateErrorStatuses | Backend/src/services/usuario.service.js:24-57 | a malformed field gives 400, a missing requester role 401, and 409 exactly when the e-mail as sent is registered |
| Usuarios.CreateStoresNormalisedUser | Backend/src/services/usuario.service.js:66-101 | the stored user has the trimmed nome, the lower-cased trimmed e-mail and status ativo; the profile has the requested papel and the given ids only |
| Usuarios.CreateRoleCheckedAfterFields | Backend/src/services/usuario.service.js:25-32 | a missing requester role is reported only once every field check has passed |
| Usuarios.CreateConflictBeforeRules | Backend/src/services/usuario.service.js:35-42 | a registered e-mail gives 409 even when the role rules would forbid the request |
| Usuarios.CaseVariantEmailReachesStore | Backend/src/services/usuario.service.js:35-70 | an e-mail differing from a registered one only in case passes the 409 check and is refused by the unique index |
| Usuarios.StoredEmailNormalised | Backend/src/services/usuario.service.js:70 | the stored e-mail is lower-case and still an accepted e-mail |
| Usuarios.RegisterKeepsInvariant | Backend/src/services/usuario.service.js:66-85 | inserting a user and its profile under fresh ids with a free e-mail keeps the store invariant |
| Usuarios.LockedRefusesAnyPassword | Backend/src/services/usuario.service.js:126-129 | a locked account refuses any password and stores nothing |
| Usuarios.WrongPasswordCounts | Backend/src/services/usuario.service.js:132-141 | a wrong password adds one failed attempt, locks for 15 minutes once the count reaches 4, and changes nothing else |
| Usuarios.RightPasswordResets | Backend/src/services/usuario.service.js:145 | a right password clears the counter and the lock and changes nothing else |
| Usuarios.FourFailuresLock | Backend/src/services/usuario.service.js:132-145 | four failures lock the account at the fourth; within 15 minutes even the right password is refused, and afterwards it is accepted |
| Usuarios.FailureBeyondThresholdRelocks | Backend/src/services/usuario.service.js:134-139 | past the threshold every further failure renews the lock |
| Usuarios.Lookup | Backend/src/services/usuario.service.js:122 | a result is a user with that e-mail; no result means no user in range has it |
| Usuarios.LookupFindsTheUser | Backend/src/services/usuario.service.js:122 | under unique e-mails, findUnique finds exactly the user with the e-mail |
| Usuarios.PerfisOf | Backend/src/services/usuario.service.js:148-151 | exactly the user's profiles, in id order |
| Usuarios.CredentialFailuresUniform | Backend/src/services/usuario.service.js:119-141 | login fails only with the credentials errors or the lock |
| Usuarios.LoginTouchesOnlyTheLock | Backend/src/services/usuario.service.js:114-145 | login writes at most the counter and lock of the user with the normalised e-mail |
| Usuarios.AttemptTouchesOnlyTheLock | Backend/src/services/usuario.service.js:127-145 | an attempt writes at most the one user, the way the lock step says |
| Usuarios.UnknownUserLikeWrongPassword | Backend/src/services/usuario.service.js:123-141 | an unknown e-mail and a wrong password get the same error |
| Usuarios.LockedLoginChangesNothing | Backend/src/services/usuario.service.js:127-129 | login on a locked account gives 403 and stores nothing |
| Usuarios.LoginOpensSession | Backend/src/services/usuario.service.js:122-178 | a successful login opens the session of the user whose e-mail is the normalised one sent |
| Usuarios.SessionCarriesTheProfileRole | Backend/src/services/usuario.service.js:148-166 | under the store invariant, a session holds the user's one profile, and the token carries exactly its role |
| Usuarios.PerfisOfNone | Backend/src/services/usuario.service.js:148-151 | a user without profiles in range gets none |
| Usuarios.PerfisOfOne | Backend/src/services/usuario.service.js:148-151 | a user's only profile is all that is loaded |
| Usuarios.LoginKeepsInvariant | Backend/src/services/usuario.service.js:140-145 | changing only the counter and lock keeps the store invariant |
| Usuarios.ListedBetween | Backend/src/services/usuario.service.js:186-203 | exactly the active users matching the nome filter (ignoring case), as summaries without the hash, in id order |
| Usuarios.InsertByNome | Backend/src/services/usuario.service.js:204-206 | inserting keeps the listing sorted by nome and adds the user |
| Usuarios.SortByNome | Backend/src/services/usuario.service.js:204-206 | orderBy nome returns a sorted permutation |
| Usuarios.PermutationIdsDistinct | Backend/src/services/usuario.service.js:196-207 | the sorted listing repeats no id |
| Usuarios.ListingSelects | Backend/src/services/usuario.service.js:185-210 | the listing holds each listed user once, as its summary, and nobody else |
| Usuarios.UsuarioService.constructor | Backend/src/services/usuario.service.js:1 | the store starts empty and valid |
| Usuarios.UsuarioService.Create | Backend/src/services/usuario.service.js:21-105 | returns CreateResult; on success stores the user and profile under the next ids, on failure nothing; keeps the invariant |
| Usuarios.UsuarioService.Register | Backend/src/services/usuario.service.js:66-102 | the transaction fails, writing nothing, iff the normalised e-mail is taken; otherwise both rows are written |
| Usuarios.UsuarioService.Insert | Backend/src/services/usuario.service.js:67-85 | both rows are stored under the next ids |
| Usuarios.UsuarioService.Authenticate | Backend/src/services/usuario.service.js:114-179 | returns the outcome and leaves the user table that Authentication gives; the profiles are untouched |
| Usuarios.UsuarioService.Attempt | Backend/src/services/usuario.service.js:125-178 | the lock, then the password, then the session, as Attempted gives |
| Usuarios.UsuarioService.StoreAttempt | Backend/src/services/usuario.service.js:140-145 | only the one user's row is replaced |
| Usuarios.UsuarioService.List | Backend/src/services/usuario.service.js:185-210 | exactly the listed users, sorted by nome, each once |
| AuthMiddleware.Split | Backend/src/middlewares/auth.middleware.js:13 | `split` returns at least one piece |
| AuthMiddleware.SplitPiecesFree | Backend/src/middlewares/auth.middleware.js:13 | no piece holds the separator |
| AuthMiddleware.JoinSplit | Backend/src/middlewares/auth.middleware.js:13 | joining the pieces with the separator gives the string back |
| AuthMiddleware.SplitPrefix | Backend/src/middlewares/auth.middleware.js:13 | a separator-free prefix is glued to the first piece of the rest |
| AuthMiddleware.SplitJoin | Backend/src/middlewares/auth.middleware.js:13 | splitting separator-free pieces joined by the separator gives them back |
| AuthMiddleware.Token | Backend/src/middlewares/auth.middleware.js:12-13 | a token, when found, is non-empty and holds no space |
| AuthMiddleware.SchemeThenToken | Backend/src/middlewares/auth.middleware.js:13 | any scheme word, a space and a token yield the token, whatever follows |
| AuthMiddleware.TokenShape | Backend/src/middlewares/auth.middleware.js:13 | a header yields a token only in that shape |
| AuthMiddleware.BearerToken | Backend/src/middlewares/auth.middleware.js:13 | "Bearer T" yields T |
| AuthMiddleware.AuthenticateToken | Backend/src/middlewares/auth.middleware.js:10-31 | passes on iff there is a token and it verifies, with the decoded payload; 401 iff there is no token; 403 otherwise |
| AuthMiddleware.AnyAllowed | Backend/src/middlewares/auth.middleware.js:47 | true iff some allowed role is held |
| AuthMiddleware.RequireRole | Backend/src/middlewares/auth.middleware.js:40-57 | 401 without a user; passes on iff an allowed role is held; otherwise 403 naming the allowed roles joined by ", " |
| AuthMiddleware.NoRoleAllowed | Backend/src/middlewares/auth.middleware.js:46-53 | an empty list of allowed roles turns every user away |
| AuthMiddleware.RequireRoleMonotone | Backend/src/middlewares/auth.middleware.js:46-47 | allowing more roles, or holding more, never turns away a user who passed |
| AuthMiddleware.GuardOutcomes | Backend/src/middlewares/auth.middleware.js:10-57 | behind authenticateToken, requireRole never answers 401, so a 401 always means a missing token; a guarded route passes on iff the token verifies and carries an allowed role, with the decoded payload |
| AuthMiddleware.SessionTokenOpensItsRole | Backend/src/middlewares/auth.middleware.js:10-57 | the token of a login session opens exactly the routes that allow the user's role |

## Left out

- The Prisma store is a map per table. Its transactions, foreign keys and `updatedAt` stamps are not modelled.
  - Joined rows are replaced by ids: the organisation and team objects of a login link.
  - Dependant counts (tournaments, teams, athletes) and the teams table are inputs.
- Concurrency: each operation runs alone.
  - Two requests racing between the uniqueness check and the insert are not modelled.
- bcrypt and the JWT library are opaque parameters (`senhaHash`, `compare`, `sign`, `verify`).
  - The JWT secret, its default and the 24-hour expiry are not modelled.
  - An expired token is one that `verify` rejects.
- The clock is the parameter `now`.
  - The lock's end is computed from the same `now` as the lock check, not from a second reading of the clock.
- Unicode case mapping is left out: `toLowerCase`/`toUpperCase` act on ASCII letters only, and the case-insensitive filter uses the same mapping.
- The store's collation for `orderBy nome` and `createdAt` ties is code-point order; any total order that breaks ties some other way is not modelled.
- The list of profiles a login loads is taken in id order; the store guarantees no order.
- `Number(...)` conversions of ids are left out: ids are integers, and an absent or zero id is "not given".
- The controllers, routes and React state (loading flags, navigation, the API calls after a successful submit) are not part of this model. Also left out: the form's page loading for edit, and the other pages.
- Payload fields are modelled as strings, an absent field as the empty string or None.
  - In the source a truthy field that is not a string (a number, an object) makes `.trim()` throw a TypeError, in createOrganizacao (organizacao.service.js:24-29) and for `nome` in createUsuario (usuario.service.js:25). The controllers answer it with 400 and the runtime's message. This path is not modelled.
  - updateOrganizacao instead converts each sent field with `String(...)` (organizacao.service.js:98-125). A sent `null`, `0` or `false` becomes the empty string, except for status, which becomes "NULL", "0" or "FALSE" and is refused. A truthy non-string becomes its text. Only string fields are modelled; a sent `null` is modelled as the sent empty string.
- Usuarios.StatusCodeAnswered is proved with an empty body: the fact holds by unfolding alone.

## Findings

| source | as written | input that shows it | evidently intended | confidence | as-written member | corrected member |
|---|---|---|---|---|---|---|
| Frontend/versus-app/src/pages/OrganizacaoFormPage.jsx:122-124 | the hyphen is always inserted at position 10, so ten digits become "(DD) DDDDD-DDD" | typing 1199998888 gives "(11) 99998-888", which validateTelefone accepts and the back-end phone expression refuses (400) | "(NN) NNNN-NNNN" for ten digits, the hyphen before the last four, as the comment at line 114 says | not executed | OrganizacaoForm.FormatTelefoneTenDigitsRejected | OrganizacaoForm.FormatTelefoneFixedMatchesBackend |
