# noesisBackend: the store and its endpoints, in Dafny

noesisBackend is a small HTTP backend for a learning app. It keeps four
SQLite tables:

- `usuarios`: email and password.
- `favoritos`: the classes a user has bookmarked.
- `visitas`: one visit counter per user and class.
- `puntajes`: a user's best quiz score, stored as a fraction and a level.

The endpoints of `main.py` register, log in, look up and delete users. They
add, remove, update and list favorites. They record and list visits, and
they read and submit scores.

This project models those endpoints and the tables of `models.py`:

- `Models` holds the rows and the store value `Tables`. It also holds the
  predicate `Valid`. That predicate gathers the schema's constraints:
  - emails are unique;
  - primary keys are distinct;
  - every child row references an existing user.

  It also gathers the uniqueness rules the handlers enforce by checking
  before they insert:
  - one favorite per user and class;
  - one visit counter per user and class;
  - one score per user.
- `Queries` holds the two query shapes the handlers use:
  - `filter(...).first()` is `First`;
  - `filter(...).all()` is `Filter`.

  Rows are kept in insertion order.
- `Handlers` holds one function per endpoint. It maps the store as the
  request finds it to the HTTP outcome and, for a writing endpoint, to the
  store the request leaves behind (`Step`). Every error is raised before
  anything is committed, so a failed request leaves the store as it was.
- `UserProperties`, `FavoritoProperties`, `VisitaProperties` and
  `PuntajeProperties` prove what each group of endpoints promises:
  - the exact outcome of each endpoint, with both directions of each error
    condition;
  - round trips, such as register then log in;
  - idempotence of the lazy score creation;
  - the monotonicity of the best score;
  - the cascade on delete;
  - that every writing endpoint preserves `Valid`.
- `Store` is the database session as the handlers use it: a class with one
  field per table, changed in place. Each write endpoint is a method. Each
  method:
  - performs the same row operations as the source: append, bump, overwrite
    or delete. The one exception is `ActualizarFavorito`: it is the corrected
    update listed under "## Findings", and it answers 400 where the source
    overwrites;
  - ensures that its answer and the new tables are exactly what the handler
    function of the same name gives;
  - keeps `Valid`.

## Model

| member | source | states |
|---|---|---|
| Queries.First | main.py:34 | The index of the first row that satisfies the filter, with no earlier row satisfying it. None exactly when no row does. |
| Queries.Filter | main.py:176 | The rows selected are exactly the rows of the table that satisfy the filter. No more rows than the table. |
| Queries.FilterSelects | main.py:176 | The selection is the subsequence of the table at exactly the positions whose row qualifies, in increasing order: table order is kept and every qualifying row appears once. |
| Queries.RemoveAt | main.py:164 | Deleting one row leaves the same rows minus that one, in the same order. |
| Queries.FilterPairwise | models.py:13-15 | The rows a cascade keeps still satisfy every uniqueness rule the table satisfied. |
| Handlers.GetUserByEmail | main.py:33-34 | The row found has the email. None exactly when no user has it. |
| Handlers.FindFavorito | main.py:119-123 | The row found belongs to the user and the class. None exactly when no such favorite exists. |
| Handlers.FindVisita | main.py:224-228 | The counter found belongs to the user and the class. None exactly when there is none. |
| Handlers.FindPuntaje | main.py:279 | The score found belongs to the user. None exactly when the user has none. |
| Handlers.FavoritosDe | main.py:176 | Exactly the favorites whose foreign key is the user. |
| Handlers.VisitasDe | main.py:253 | Exactly the visit counters whose foreign key is the user. |
| Handlers.FavoritosSin | models.py:13 | The favorites left after a cascade are exactly those of other users. |
| Handlers.VisitasSin | models.py:14 | The visit counters left after a cascade are exactly those of other users. |
| Handlers.PuntajesSin | models.py:15 | The scores left after a cascade are exactly those of other users. |
| Handlers.GetUsuarios | main.py:55-60 | One entry per user, in table order, carrying that user's email and password. |
| UserProperties.NextIdUnused | models.py:8 | In a valid store, no user and no child row carries the next generated primary key. |
| UserProperties.GetUserByEmailUnique | models.py:9 | With unique emails, looking up a user's email finds that user's row. |
| UserProperties.RegistrarUsuarioOutcome | main.py:62-72 | 400 exactly when the email is taken, and then nothing changes. Otherwise exactly one user row and one 0 / 20 / "Básico" score row for that user are added. |
| UserProperties.RegistrarUsuarioPreservesValid | main.py:36-52 | Registration keeps every constraint of the store. |
| UserProperties.RegistrarUsuarioTwice | main.py:66-67 | Registering the same email a second time is refused with 400 and changes nothing. |
| UserProperties.RegistrarThenLogin | main.py:74-85 | After a registration, login with that password succeeds. Login with any other password is refused with 401. |
| UserProperties.RegistrarThenPuntajeInicial | main.py:43-48 | Right after registration, reading the score gives 0 / 20 / "Básico" and stores nothing more. |
| UserProperties.LoginUsuarioOutcome | main.py:74-85 | 404 exactly when no user has the email. 401 exactly when that user's password differs. Success exactly when both match. No other error. |
| UserProperties.ObtenerUsuarioOutcome | main.py:87-95 | Answers with the email exactly when a user has it, and with 404 otherwise. |
| UserProperties.EliminarUsuarioUnknownUser | main.py:100-103 | Deletion answers 404 exactly when no user has the email, and then deletes nothing. 404 is its only error. |
| UserProperties.EliminarUsuarioCascades | main.py:104-109 | Deleting a registered user removes that user and every favorite, visit and score it owns, and keeps every row of every other user. |
| UserProperties.EliminarUsuarioThenNotFound | main.py:97-109 | After a deletion, lookup, login, favorites, visits and score reads for that email all answer 404. |
| UserProperties.EliminarUsuarioPreservesValid | models.py:13-15 | Deletion keeps every constraint. No row is left referencing the deleted user. |
| FavoritoProperties.FindFavoritoUnique | main.py:119-126 | With one favorite per user and class, the row found is the only one with that pair. |
| FavoritoProperties.AgregarFavoritoUnknownUser | main.py:114-117 | Adding a favorite for an unknown email answers 404 exactly then, and changes nothing. |
| FavoritoProperties.AgregarFavoritoGrows | main.py:119-147 | For a registered user: 400 exactly when the user already holds the class, and then nothing changes. Otherwise exactly that row is appended and echoed, the other tables stay, and the user's listed total grows by one. |
| FavoritoProperties.AgregarFavoritoPreservesValid | main.py:119-136 | Adding a favorite keeps every constraint, including one favorite per user and class. |
| FavoritoProperties.RemoverFavoritoExact | main.py:156-167 | For a registered user: 404 exactly when the user holds no such favorite, and then nothing changes. Otherwise exactly that one row goes, and the other tables stay. |
| FavoritoProperties.RemoverFavoritoUnknownUser | main.py:152-154 | Removing a favorite for an unknown email answers 404 and changes nothing. |
| FavoritoProperties.RemoverFavoritoPreservesValid | main.py:149-167 | Removing a favorite keeps every constraint. |
| FavoritoProperties.ObtenerFavoritosUsuarioLists | main.py:176-191 | For a registered user the list shows exactly the user's favorites, and `total` is the length of the list. |
| FavoritoProperties.ObtenerFavoritosUsuarioUnknownUser | main.py:172-174 | Listing favorites answers 404 exactly when no user has the email. 404 is its only error. |
| FavoritoProperties.ActualizarFavoritoAsWrittenBreaksUniqueness | main.py:193-214 | As written, moving a favorite onto a class the user already holds succeeds and leaves two favorites for one class. |
| FavoritoProperties.ActualizarFavoritoAsWrittenCounterexample | main.py:208-210 | A concrete valid store where the update as written produces two identical favorite rows. |
| FavoritoProperties.ActualizarFavoritoOutcome | main.py:200-214 | For a registered user: 404 exactly when the favorite is missing. 400 exactly when the new class is another favorite of the user. Otherwise only that row's three columns are overwritten, and the other tables stay. |
| FavoritoProperties.ActualizarFavoritoUnknownUser | main.py:196-198 | Updating a favorite for an unknown email answers 404 and changes nothing, as written and corrected. |
| FavoritoProperties.ActualizarFavoritoPreservesValid | main.py:193-214 | The corrected update keeps every constraint, including one favorite per user and class. |
| VisitaProperties.VisitasDeBumpTotal | main.py:232 | Bumping one of a user's counters raises that user's visit total by exactly one. |
| VisitaProperties.VisitasDeBumpOthers | main.py:232 | Bumping one user's counter leaves every other user's visit list unchanged. |
| VisitaProperties.SumCountsAtLeastLength | models.py:35 | Counters that each start at 1 and only grow add up to at least their number. |
| VisitaProperties.FindVisitaUnique | main.py:224-228 | With one counter per user and class, the counter found is the only one with that pair. |
| VisitaProperties.RegistrarVisitaUnknownUser | main.py:219-222 | Recording a visit for an unknown email answers 404 exactly then, and changes nothing. |
| VisitaProperties.CountOfBump | main.py:232 | Bumping the counter found gives that counter plus one. |
| VisitaProperties.CountOfInsert | main.py:236-241 | A counter created for a pair that had none reads 1. |
| VisitaProperties.ContarVisitaCounts | main.py:230-242 | One more visit raises the user's counter for the class by exactly one, a missing counter counting as 0. Every other (user, class) counter stays as it was. It adds a row only when there was none. |
| VisitaProperties.CountOfOthers | main.py:230-242 | One more visit to one (user, class) pair leaves the counter of every other pair as it was. |
| VisitaProperties.RegistrarVisitaCounts | main.py:217-244 | For a registered user the visit succeeds and raises the (user, class) counter by one. Every other counter stays. It inserts only when the counter was missing, and the other tables stay. |
| VisitaProperties.VisitasDeInsertTotal | main.py:236-241 | A new counter adds its count to its owner's visit total. |
| VisitaProperties.ContarVisitaTotal | main.py:230-242 | One more visit adds exactly one to the sum of the user's counters. |
| VisitaProperties.RegistrarVisitaTotal | main.py:217-269 | Recording a visit raises the user's reported `total_visitas` by exactly one. |
| VisitaProperties.RegistrarVisitaOthers | main.py:217-244 | Recording a visit leaves every other user's visits unchanged. |
| VisitaProperties.RegistrarVisitaPreservesValid | main.py:217-244 | Recording a visit keeps every constraint, including one counter per user and class, each at least 1. |
| VisitaProperties.ObtenerVisitasUsuarioTotal | main.py:253-269 | The list shows exactly the user's counters. `total_visitas` is the sum of the counts the same response lists, and at least the number of classes listed. |
| VisitaProperties.ObtenerVisitasUsuarioUnknownUser | main.py:249-251 | Listing visits answers 404 exactly when no user has the email. 404 is its only error. |
| VisitaProperties.SumDatosOfVista | main.py:255-263 | The counts shown in the listing add up to the sum of the counters they show. |
| PuntajeProperties.PorcentajeCrossMultiplication | main.py:322-325 | With positive totals, one percentage beats the other exactly when its cross product is larger. |
| PuntajeProperties.FindPuntajeUnique | main.py:279 | With one score per user, the score found is the user's only one. |
| PuntajeProperties.ObtenerPuntajesUsuarioOutcome | main.py:272-298 | 404 and no change for an unknown email. Otherwise the stored score is returned untouched, or a 0 / 20 / "Básico" score is stored and returned when there was none. |
| PuntajeProperties.ObtenerPuntajesUsuarioIdempotent | main.py:281-291 | A second read returns what the first returned and stores nothing more. |
| PuntajeProperties.PuntajeAppendValid | main.py:318 | Storing a first score for a registered user keeps every constraint. |
| PuntajeProperties.PuntajeReplaceValid | main.py:326-328 | Overwriting a user's score with another of the same user keeps every constraint. |
| PuntajeProperties.ObtenerPuntajesUsuarioPreservesValid | main.py:281-291 | The lazily created score keeps every constraint, including one score per user. |
| PuntajeProperties.ActualizarPuntajesUsuarioOutcome | main.py:300-341 | 404 and no change for an unknown email. The submission is stored as a new best when the user has no score. 500 and no change when either total is 0. Otherwise the submission replaces the score, and is a new best, exactly when its percentage is strictly higher. The response echoes the submission, and no other table changes. |
| PuntajeProperties.ActualizarPuntajesUsuarioCompares | main.py:321-329 | With positive totals, the submission is a new best exactly when its cross product is larger. |
| PuntajeProperties.PuntajeNeverDecreases | main.py:321-329 | After a submission the user's score stays in place. It is the stored or the submitted one, and its percentage is at least both. A submission that does not beat the stored percentage, a tie included, leaves the stored score. |
| PuntajeProperties.ActualizarPuntajesUsuarioPreservesValid | main.py:300-331 | Submitting a score keeps every constraint, including one score per user. |
| PuntajeProperties.HealthCheckPuntajes | main.py:361-378 | In a valid store the health check never counts more scores than users. |
| PuntajeProperties.PuntajesAtMostUsuarios | models.py:44 | Scores of distinct existing users are no more numerous than the users. |
| PuntajeProperties.DistinctKeysCount | models.py:8 | Rows with pairwise distinct keys carry as many keys as there are rows. |
| PuntajeProperties.PuntajeScenario | main.py:300-341 | Register, then submit 10/20 (new best), 12/20 (new best) and 11/20 (not a new best). Reading then gives 12/20 "Intermedio". |
| Store.Store.constructor | models.py:5-50 | The session starts on empty tables that satisfy every constraint. |
| Store.Store.CreateUser | main.py:36-52 | Appends the user with the next primary key and its default score. Keeps every constraint. Returns the new user, whose id no earlier user carried. |
| Store.Store.RegistrarUsuario | main.py:62-72 | Answer and new tables are those of registration, and every constraint holds. |
| Store.Store.DeleteCascade | main.py:106 | The tables become those left by deleting the user row and every row it owns. |
| Store.Store.EliminarUsuario | main.py:97-109 | Answer and new tables are those of deletion, and every constraint holds. |
| Store.Store.AgregarFavorito | main.py:112-147 | Answer and new tables are those of adding a favorite, and every constraint holds. |
| Store.Store.RemoverFavorito | main.py:149-167 | Answer and new tables are those of removing a favorite, and every constraint holds. |
| Store.Store.ActualizarFavorito | main.py:193-214 | Overwrites the favorite's three columns in place. Answer and new tables are those of the corrected update, and every constraint holds. |
| Store.Store.ContarVisita | main.py:230-242 | Bumps the counter in place or appends a new one at 1. Nothing else changes. |
| Store.Store.RegistrarVisita | main.py:217-244 | Answer and new tables are those of recording a visit, and every constraint holds. |
| Store.Store.ObtenerPuntajesUsuario | main.py:272-298 | Answer and new tables are those of reading a score, lazy creation included, and every constraint holds. |
| Store.Store.ActualizarPuntajesUsuario | main.py:300-341 | Answer and new tables are those of submitting a score. The score is overwritten in place only on a strictly higher percentage. Every constraint holds. |

## Left out

- The web layer is not modelled:
  - FastAPI routing, CORS and request validation;
  - the Pydantic shapes of `schemas.py`, beyond the fields the handlers read and return;
  - the `message` and `detail` texts of responses.

  Responses are the status code and the data fields.
- The root endpoint (`main.py:344-359`) is not modelled. It returns a constant description and touches no table.
- The health check is modelled on its success path only. Its `unhealthy` answer is the reaction to a database exception, and the model has no failing database.
- SQLAlchemy sessions, `commit`, `refresh` and `create_all` are not modelled. Each request is one atomic step, and the initial store is `Empty()`.
- The two commits of `create_user` are modelled as one step. A failure between them would leave a user without a score. The model has no failure there.
- The surrogate `id` columns of `favoritos`, `visitas` and `puntajes` are left out. No handler reads them.
- User primary keys come from a counter that never goes back. SQLite may reuse the largest id after a delete. Since the cascade leaves no row referencing a deleted user, a reused id is indistinguishable in every answer.
- The schema's nullability and string typing are carried by the Dafny types. A missing field is rejected by request validation before any handler runs.
- Integer width is not modelled. The `Integer` columns of SQLite hold 64-bit values, and binding a Python int outside that range raises an error at commit. So a submitted score of 2^63 or more would be a 500 at main.py:331, where the model stores it. Likewise `int / int` at main.py:322-323 overflows when the quotient is beyond float range. Scores, totals and visit counts are unbounded integers in the model.
- Passwords are compared in plain text, as the source does. No hashing is modelled.
- Concurrency is not modelled: requests are serialised.
- Percentages are compared as exact rationals. The source compares Python floats. Two different fractions whose floating-point percentages round to the same value could compare differently. `PorcentajeCrossMultiplication` states the exact comparison.
- A zero `puntaje_total` on either side of the score comparison raises a division by zero in the source. Nothing has been committed at that point. The model answers 500 (`InternalError`) and leaves the store as it was. A zero total in the first submission, which performs no division, is stored as the source stores it.
- Queries.Filter: its contract states membership and the bound on length, not row order. `FilterSelects` states order and multiplicity, as a separate lemma to keep the solver's work small.
- FavoritoProperties.ObtenerFavoritosUsuarioLists: states the listed favorites as a set, both ways, not their order. The order is the table order, as `FilterSelects` states.
- VisitaProperties.ObtenerVisitasUsuarioTotal: states the listed counters as a set, both ways, not their order. The order is the table order, as `FilterSelects` states.
- The level label of the default score is "Básico" (models.py:47, main.py:47).

## Findings

| source | as written | input that shows it | evidently intended | confidence | as-written member | corrected member |
|---|---|---|---|---|---|---|
| main.py:193-214 | `actualizar_favorito` overwrites `clase_id` without checking that the user does not already hold the new class, unlike `agregar_favorito` (main.py:120-126). | User 1 holds favorites `c1` and `c2`. A PUT on `c1` with `clase_id` `c2` succeeds and leaves two `c2` favorites for user 1. | Refuse with 400 when the new `clase_id` is another favorite of the user, as adding one does. | not executed | FavoritoProperties.ActualizarFavoritoAsWrittenCounterexample | FavoritoProperties.ActualizarFavoritoPreservesValid |
