# Access control and account services of the cursomc shop, in Dafny

This project models the security-relevant core of the cursomc Spring Boot
back end (a shop with customers, categories and products) as pure functions
over immutable datatypes. It also proves properties of that model.

- **Self-or-admin access** (`ClienteService`): `find` and `findByEmail`
  refuse a request without a principal. They also refuse a principal that is
  neither ADMIN nor the owner of the record. Only then do they look the
  record up. `update` goes through `find` and copies only the name and
  email. `insert` discards the incoming id. The two `fromDTO` builders and
  the profile-picture file name are modelled too.
- **Route policy** (`SecurityConfig`): the `authorizeRequests()` chain.
  The H2 console is open to every method, three catalogue prefixes are open
  to GET, and sign-up and forgotten-password are open to POST. Every other
  request needs authentication. The CORS method list is modelled as well.
- **Password reset** (`AuthService`): `randomChar`, `newPassword` (ten
  characters) and `sendNewPassword`. The reset looks the customer up by
  email, stores the encoded temporary password, saves the row, and then
  mails the plaintext.
- **Principal resolution** (`UserDetailsServiceImpl`): `loadUserByUsername`
  copies id, email, stored hash and roles into a principal. It fails with
  the email when no customer has it.

The modules are:

- `Results`: Option and Result.
- `Text`: how Java renders an `Integer` into a string, and its inverse.
- `Domain`: the roles, the principal and the customer. It also holds the
  customer table as a sequence of rows, with its lookups and saves.
- `ClienteService`, `SecurityConfig`, `AuthService` and `UserDetails`:
  one module per source file.

Some things the source reads from its environment are parameters here:

- The authenticated principal (`UserService.authenticated()`) is an explicit
  `Option<Principal>`.
- `BCryptPasswordEncoder.encode` is a function argument `encode`.
- `java.util.Random` is replaced by the draws it would return: a
  `Draw` is one `randomChar` call's pair of `nextInt` results, with
  `nextInt`'s bounds in its type.
- The database key generator is a fresh id given to `Insert`.

The table's well-formedness (every row has a distinct non-null id) is the
database primary key. It is required where rows are written and preserved by
every write.

The code differs from a hardened design in three ways, and the model follows
the code each time:

- Password reset for an unknown email fails with a distinguishable
  not-found error instead of a uniform answer.
- Route rules are tried in registration order, first match wins. They are
  not ordered by specificity. No two listed rules overlap, so the outcome is
  the same.
- The temporary password comes from a general-purpose generator.

## Model

| member | source | states |
|---|---|---|
| Text.ParseShowInt | src/main/java/com/lucasoliveira/cursomc/services/ClienteService.java:158 | The decimal rendering of an id concatenated into a string can be parsed back to that id |
| Text.ShowOptIntInjective | src/main/java/com/lucasoliveira/cursomc/services/ClienteService.java:158 | Different ids, null included, never render to the same text |
| Domain.IndexOfId | src/main/java/com/lucasoliveira/cursomc/services/ClienteService.java:63 | `findOne`: the row found carries the requested id; none is found exactly when no row carries it |
| Domain.IndexOfEmail | src/main/java/com/lucasoliveira/cursomc/services/UserDetailsServiceImpl.java:21 | `findByEmail`: the row found carries the requested email; none is found exactly when no row has it |
| Domain.Save | src/main/java/com/lucasoliveira/cursomc/services/ClienteService.java:84 | Saving an existing record overwrites its row in place: the table keeps its length and every other row, and lookups of other ids are unaffected |
| Domain.Persist | src/main/java/com/lucasoliveira/cursomc/services/ClienteService.java:74 | Saving a record without id appends one row under a fresh key; existing rows are untouched and the table stays well-formed |
| ClienteService.MayReadId | src/main/java/com/lucasoliveira/cursomc/services/ClienteService.java:59-61 | `find` admits exactly a present principal that holds ADMIN or whose id equals the requested id |
| ClienteService.NonAdminReadsOnlyOwnId | src/main/java/com/lucasoliveira/cursomc/services/ClienteService.java:59 | A principal without ADMIN can read at most one id, its own |
| ClienteService.Find | src/main/java/com/lucasoliveira/cursomc/services/ClienteService.java:55-69 | No principal gives AccessDenied. AccessDenied is returned exactly when access is refused. Success happens exactly when access is granted and the id is stored, and returns that stored record. A granted but absent id gives ObjectNotFound with the source's message |
| ClienteService.FindDeniesBeforeLookup | src/main/java/com/lucasoliveira/cursomc/services/ClienteService.java:57-63 | A refusal of `find` is the same whatever the table holds: authorization happens before any lookup |
| ClienteService.MayReadEmail | src/main/java/com/lucasoliveira/cursomc/services/ClienteService.java:101-103 | `findByEmail` admits exactly a present principal that holds ADMIN or whose username equals the requested email |
| ClienteService.FindByEmail | src/main/java/com/lucasoliveira/cursomc/services/ClienteService.java:99-111 | Same self-or-admin rule keyed by email. Success returns a stored record with that email. An absent email gives ObjectNotFound naming the principal's id |
| ClienteService.Insert | src/main/java/com/lucasoliveira/cursomc/services/ClienteService.java:71-77 | Whatever id the incoming customer carries, the insert appends exactly one row under a fresh id and keeps every existing row. All other fields are the caller's |
| ClienteService.UpdateData | src/main/java/com/lucasoliveira/cursomc/services/ClienteService.java:139-142 | Only name and email come from the request; id, document, type, password, roles, phones and addresses stay those of the stored record |
| ClienteService.Update | src/main/java/com/lucasoliveira/cursomc/services/ClienteService.java:79-85 | A null id fails: with AccessDenied when there is no principal, otherwise with the null-id crash. Any other failure is exactly `find`'s failure. On success only the looked-up row changes, to the stored record with the new name and email, and the table stays well-formed |
| ClienteService.Phones | src/main/java/com/lucasoliveira/cursomc/services/ClienteService.java:123-130 | The phone list starts with the first phone and contains exactly it and whichever of the second and third phones are present |
| ClienteService.FromNewForm | src/main/java/com/lucasoliveira/cursomc/services/ClienteService.java:118-133 | The new customer has no id. Its password is the encoder applied to the form's password. It gets the phones above and exactly one address built from the form's address fields |
| ClienteService.FromForm | src/main/java/com/lucasoliveira/cursomc/services/ClienteService.java:135-137 | The edit-form customer keeps id, name and email and leaves document, type and password null |
| ClienteService.UpdateFromFormKeepsStoredFields | src/main/java/com/lucasoliveira/cursomc/services/ClienteService.java:135-142 | Updating from the edit form never lets its null fields reach the table: the saved record keeps the stored password, document, type, roles, phones and addresses, and takes name and email from the form |
| ClienteService.ProfilePictureName | src/main/java/com/lucasoliveira/cursomc/services/ClienteService.java:144-158 | No principal gives AccessDenied. Otherwise the name is the prefix, then the principal's id as Java renders it, then ".jpg" |
| ClienteService.ProfilePictureNamesDistinct | src/main/java/com/lucasoliveira/cursomc/services/ClienteService.java:158 | Principals with different ids get different picture names under the same prefix |
| SecurityConfig.MatchesWildcard | src/main/java/com/lucasoliveira/cursomc/config/SecurityConfig.java:66-68 | A pattern ending in the wildcard matches exactly its base path and the paths below it |
| SecurityConfig.PermitAllOpens | src/main/java/com/lucasoliveira/cursomc/config/SecurityConfig.java:66-68 | A `permitAll()` group grants public access, and applies to exactly the requests whose method it admits and whose path one of its patterns matches |
| SecurityConfig.Decide | src/main/java/com/lucasoliveira/cursomc/config/SecurityConfig.java:65-69 | The first applicable rule decides. A public answer always comes from an applicable permitting rule. A request no rule applies to needs authentication (fail-closed). If every rule permits, any applicable rule makes the request public |
| SecurityConfig.Classify | src/main/java/com/lucasoliveira/cursomc/config/SecurityConfig.java:65-69 | The application's chain makes a request public exactly when it is one of the listed (method, route) pairs, and requires authentication for every other request |
| SecurityConfig.ChainEntries | src/main/java/com/lucasoliveira/cursomc/config/SecurityConfig.java:42-68 | The chain holds exactly the six (method, pattern) entries of the three public tables, in registration order |
| SecurityConfig.ChainByEntries | src/main/java/com/lucasoliveira/cursomc/config/SecurityConfig.java:65-69 | A request is public exactly when some entry of the chain applies to it |
| SecurityConfig.EntryOpensOnlyPublicRoutes | src/main/java/com/lucasoliveira/cursomc/config/SecurityConfig.java:42-55 | Any single entry that applies to a request makes it one of the listed (method, route) pairs |
| SecurityConfig.EntriesOpenOnlyPublicRoutes | src/main/java/com/lucasoliveira/cursomc/config/SecurityConfig.java:42-55 | Every entry opens only the listed (method, route) pairs |
| SecurityConfig.PublicRoutesHaveEntries | src/main/java/com/lucasoliveira/cursomc/config/SecurityConfig.java:42-55 | Every listed (method, route) pair is opened by some entry |
| SecurityConfig.ChainPublicIff | src/main/java/com/lucasoliveira/cursomc/config/SecurityConfig.java:42-69 | A request is public exactly when it is under the H2 console (any method), a GET under one of the three catalogue prefixes, or a POST to the sign-up path or under the forgotten-password prefix. Every other request needs authentication |
| SecurityConfig.SignUpIsPublicForPost | src/main/java/com/lucasoliveira/cursomc/config/SecurityConfig.java:52-55 | POST to the sign-up path is public |
| SecurityConfig.SignUpIsProtectedForGet | src/main/java/com/lucasoliveira/cursomc/config/SecurityConfig.java:67-69 | GET to the sign-up path needs authentication: its public status is for POST only |
| SecurityConfig.CatalogueIsPublicForGet | src/main/java/com/lucasoliveira/cursomc/config/SecurityConfig.java:46-50 | GET below a catalogue prefix is public |
| SecurityConfig.CatalogueIsProtectedForPost | src/main/java/com/lucasoliveira/cursomc/config/SecurityConfig.java:67-69 | POST below the same catalogue prefix needs authentication |
| SecurityConfig.ConsoleIsPublicForEveryMethod | src/main/java/com/lucasoliveira/cursomc/config/SecurityConfig.java:42-44 | Every method may reach a path below the H2 console |
| SecurityConfig.PrefixSiblingIsNotPublic | src/main/java/com/lucasoliveira/cursomc/config/SecurityConfig.java:46-50 | A path that only shares characters with a public base, not the separator, needs authentication |
| SecurityConfig.CorsAllows | src/main/java/com/lucasoliveira/cursomc/config/SecurityConfig.java:83 | Cross-origin requests are allowed for exactly POST, GET, PUT, DELETE and OPTIONS |
| AuthService.RandomChar | src/main/java/com/lucasoliveira/cursomc/services/AuthService.java:48-56 | First draw 0 gives exactly a digit, 1 exactly an upper-case letter, 2 exactly a lower-case letter |
| AuthService.RandomCharBijective | src/main/java/com/lucasoliveira/cursomc/services/AuthService.java:48-56 | Every ASCII letter and digit is produced by some draw, and by only one |
| AuthService.NewPassword | src/main/java/com/lucasoliveira/cursomc/services/AuthService.java:40-46 | The password has exactly ten characters, the i-th produced by the i-th draw, all ASCII letters or digits |
| AuthService.SendNewPassword | src/main/java/com/lucasoliveira/cursomc/services/AuthService.java:26-38 | An unknown email fails with ObjectNotFound and no table or effects. Otherwise the looked-up row changes only in its password, which becomes the encoding of the temporary password. That row is saved first, then the same plaintext is mailed to it. The next login by that email resolves to the new hash |
| UserDetails.LoadUserByUsername | src/main/java/com/lucasoliveira/cursomc/services/UserDetailsServiceImpl.java:19-29 | Fails with UsernameNotFound carrying the email exactly when no customer has it. Otherwise the principal's id, username, password hash and roles are those of a stored customer with that email |
| UserDetails.ResolvedPrincipalReadsOwnRecord | src/main/java/com/lucasoliveira/cursomc/services/UserDetailsServiceImpl.java:21-26 | The principal resolved for an email passes `findByEmail` for that email and `find` for its own id, and both return the same record |
| UserDetails.SignUpThenResolve | src/main/java/com/lucasoliveira/cursomc/services/UserDetailsServiceImpl.java:21-26 | A customer built from the sign-up form and inserted under an email no one else uses resolves at login to a principal with the new key, that email, the encoded chosen password and the initial roles |

## Left out

- JWT token minting and validation, and the authentication and authorization filters: `JWTUtil` and the filters are only referenced (SecurityConfig.java lines 3-5, 70-71); their source is not part of this model.
- `UserService.authenticated`: it reads the ambient security context and turns every exception into null. It is replaced by the explicit `Option<Principal>` argument.
- BCrypt hashing, salting and constant-time comparison: the encoder is an arbitrary function argument.
- `java.util.Random`: the draws are inputs. The generator's quality is not modelled.
- Image decoding, cropping, resizing and the S3 upload in `uploadProfilePicture`: foreign calls. Only the principal check and the file name are kept.
- `findAll`, `findPage` and `delete`: repository pass-throughs and Spring paging or exception translation, with no logic of their own.
- `CidadeService`: a one-line repository pass-through.
- The address repository save in `insert`: addresses live inside their customer; there is no separate address table.
- CSRF, session policy, frame options for the test profile, and `applyPermitDefaultValues` other than the method list.
- SecurityConfig.MatchesWildcard: Spring's AntPathMatcher is replaced by a simplified matcher. A base followed by the wildcard matches the base and everything below it, and any other pattern matches only itself. Trailing slashes, single-segment wildcards and other ant syntax are not modelled.
- Domain.NewCustomer: the `Cliente` constructor is not part of this model. It is assumed to start with no phones and no addresses and to give the CLIENTE role.
- ClienteService.Phones: the type of `Cliente`'s phone collection is not part of this model. Phones are kept as a list in insertion order; if the collection is a set, repeated numbers would collapse.
- ClienteService.FromNewForm: `TipoCliente.toEnum` is not part of this model, so the customer type is kept as the raw code. The address's back reference to its customer is represented by the address being held in that customer's list.
- ClienteService.Update: the two ways a null id fails in the source are merged into one `NullId` error. For a non-admin it is a null dereference; for an admin it is the repository rejecting a null key.
- Domain.IndexOfEmail: with duplicate emails the first row is taken. The source's repository would fail instead; the database's uniqueness constraint is not part of this model.
- Domain.Persist: key generation is not modelled; the new key is an argument that no row uses yet.
- AuthService.SendNewPassword: mail delivery is assumed to succeed. In the source the mail is sent after the save, outside any transaction, so a mailer that throws would leave the new hash saved and the call failed; that outcome is not modelled.
- Integer width: ids are unbounded integers. Only their decimal rendering is used, and that rendering is the same for every 32-bit value.
