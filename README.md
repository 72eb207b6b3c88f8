# Teller cache layer, modelled in Dafny

The Teller sample backend keeps a local cache of a bank-data provider's answers. It has four parts:

- **The tables.** Four SQLAlchemy tables: users, accounts, balances and transactions.
- **The repository.** It writes these tables (`Repository`).
- **The HTTP handlers.** Falcon handlers that fill the cache from the provider and serve it back.
- **The provider client.** It converts a Teller access token into the HTTP Basic credential the provider expects, and turns each response into a payload or an error.

This project models all four parts and proves the properties the cache relies on.

Modules, one per file:

| file | module | contents |
|---|---|---|
| `wrappers.dfy` | `Wrappers` | `Option` and `Result`. |
| `pystrings.dfy` | `PyStrings` | The pieces of Python's `str` the code uses: `isspace`, `strip()`, `split()`, `lower()` against an ASCII literal, `startswith`. |
| `decimals.dfy` | `Decimals` | `decimal.Decimal` for finite numbers. `Decimal(str)` is exact, trailing zeros included. |
| `dates.dfy` | `Dates` | `datetime.date`: `fromisoformat` for "YYYY-MM-DD", `isoformat`, and chronological order. |
| `values.dfy` | `Values` | Decoded JSON and Python values, truthiness, `dict.get`, `a or b`, and the lenient converters `_as_decimal` and `_as_date`. |
| `models.dfy` | `Models` | The rows and the tables. Primary and foreign keys, cascading deletes, the two read orders, and `serialize_account`. |
| `repository.dfy` | `Repository` | What each repository operation does to the tables, as functions with their properties. The class `Store` performs the same operations on four mutable maps and is proved against those functions. |
| `utf8.dfy`, `base64.dfy` | `Utf8`, `Base64` | `str.encode()` (RFC 3629) and `base64.b64encode` (section 4 of RFC 4648), each with the decoder that reads it back. |
| `tellerapi.dfy` | `TellerApi` | `_bearer_to_basic`, producing a Basic credential (section 2 of RFC 7617). Also `_handle_response`, and the three account reads over a transport parameter. |
| `db.dfy` | `Db` | `build_database_url`, with the environment variables as parameters. |
| `resources.dfy` | `Resources` | The handlers: bearer-token parsing, authentication, query-parameter validation, ownership checks. The session scope either commits a request's changes or rolls the store back to its snapshot. |

Decisions that follow the code:

- **Pruning.** `replace_transactions` deletes every previously cached transaction of the account that the batch leaves out. No date window applies (python/repository.py:137-141).
- **Rows owned by another account.** A batch id already cached under another account is updated in place and keeps its owner, because the row is found by primary key and `account_id` is never reassigned.
- **Uncaught exceptions.** The application installs no error handler, so an uncaught exception becomes a 500. The session scope rolls the store back, and the model answers `Crash` with the tables unchanged. This covers:
  - a provider error from `list_accounts` during enrolment;
  - an exception raised by `requests` itself (a refused connection, a TLS failure, the timeout), during enrolment and on the live endpoints;
  - a payload that is not a dict;
  - an account without an id;
  - a token held by several users.
- **Ids that are not strings.** The model fails the request on a truthy account id, user id or transaction id that is not a string. This is the model's own choice, not the program's behaviour:
  - the program stores a number used as an id as text on SQLite;
  - it probably does the same on PostgreSQL, because the psycopg dialect casts every String parameter to `VARCHAR`;
  - a list or dict transaction id fails in the program too, because it is unhashable at the `seen` check.
- **No single database.** The row orders (`NULL` first, code-point collation) follow SQLite. Together with the choice on ids above, no single database behaves exactly like the model, and neither line describes the deployment.

## Model

| member | source | states |
|---|---|---|
| `Repository.UserUpserted` | python/repository.py:21-29 | The user is created when absent, or takes the new token. It keeps its old name when the new one is `None` or empty. No other user changes. |
| `Repository.UpsertedTokenHolders` | python/repository.py:21-33 | After an upsert, the new token matches the upserted user plus whoever held that token already. Every other token loses that user. |
| `Repository.UpsertedTokenUnique` | python/repository.py:31-33 | When no other user held the token, a lookup after the upsert finds exactly the upserted user. |
| `Repository.UserUpsertIdempotent` | python/repository.py:21-29 | Repeating an upsert with the same arguments changes nothing. |
| `Repository.InstitutionOf` | python/repository.py:53-54 | The institution column is the dict's `"id"` when the value is a dict. It is `NULL` for a missing or falsy value, and otherwise the value itself. |
| `Repository.LastFourOf` | python/repository.py:52-52 | `last_four` falls back to `lastFour` when missing or falsy. |
| `Repository.AccountFromPayload` | python/repository.py:57-68 | The account row is keyed by the payload id, linked to the given user, and keeps the raw payload. |
| `Repository.AccountUpserted` | python/repository.py:36-70 | A falsy id is the "missing id" error, and a truthy id that is not a string is an error too; a string id succeeds exactly when it is truthy. On error nothing changes. Otherwise the row under that id is the payload's, owned by the user; the account keys gain only that id and every other account is unchanged. |
| `Repository.AccountRelinked` | python/repository.py:40-47 | The account joins the new user's accounts and leaves every other user's. |
| `Repository.AccountLastWriteWins` | python/repository.py:47-55 | A second upsert of the same id overwrites every column, owner included, as if the first had not happened. |
| `Repository.AccountUpsertConsistent` | python/models.py:40-41 | An upsert for an existing user keeps keys and foreign keys consistent. |
| `Repository.BalanceFromPayload` | python/repository.py:89-95 | The balance row is keyed by its account, holds the converted amounts and the raw payload, and is stamped with the current time. |
| `Repository.BalanceUpdated` | python/repository.py:80-97 | A balance update touches only the balances. |
| `Repository.BalanceAtMostOne` | python/repository.py:81-96 | The balance keys gain only this account. A row is added only when the account had none, and no other balance changes. |
| `Repository.BalanceOverwritten` | python/repository.py:82-87 | A second update replaces the first in place: the result is as if only the second had run. |
| `Repository.BalanceUpdateConsistent` | python/models.py:68-68 | A balance of an existing account keeps the tables consistent. |
| `Repository.TxFromPayload` | python/repository.py:123-132 | The transaction row has the batch id, its owner, the raw payload, the converted amount and date, and the current time. |
| `Repository.Dedup` | python/repository.py:108-112 | The kept batch has distinct ids, and each id is that of its payload. |
| `Repository.IdsStorable` | python/repository.py:108-114 | In the model, the loop gets through exactly when every payload's id is missing, falsy or a string. A list or dict id also fails in the program. Refusing a number or a boolean is the model's choice. |
| `Repository.StorableSkips` | python/repository.py:109-110 | When the loop gets through, a payload is skipped as id-less exactly when `not tx_id`. |
| `Repository.DedupIds` | python/repository.py:109-112 | The kept ids are exactly the usable ids the payloads carry. |
| `Repository.DedupFirst` | python/repository.py:110-112 | Each kept id carries the payload of its first occurrence. |
| `Repository.DedupOrder` | python/repository.py:108-134 | Kept ids come in the order of their first occurrence in the input. |
| `Repository.UpsertAllAt` | python/repository.py:113-133 | After the first loop, the keys are the old keys plus the batch ids. Each batch id holds its payload's row under its original owner, or under the account for a new row. Every other row is untouched. |
| `Repository.Prune` | python/repository.py:137-141 | Deleting removes exactly the doomed keys and leaves every other row as it was. |
| `Repository.Replaced` | python/repository.py:100-142 | Replacing transactions changes only the transaction table. |
| `Repository.ReplacedRow` | python/repository.py:106-141 | A row survives exactly when it is in the batch or belongs to another account. Every surviving row keeps its owner, and a row outside the batch is unchanged. |
| `Repository.ReplacedBatchRow` | python/repository.py:113-121 | Every batch id holds the row of its kept payload. |
| `Repository.ReplacedOwnership` | python/repository.py:106-141 | After a refresh the account owns exactly the batch ids, less those another account already held. Other accounts lose no transaction. |
| `Repository.ReplacedIds` | python/repository.py:135-141 | When no batch id belongs to another account, the account's cached ids equal the batch's ids. |
| `Repository.ReplacedIdempotent` | python/repository.py:100-142 | Replacing twice with the same batch equals replacing once at the later time: same ids, no duplicate rows. |
| `Repository.ReplacedConsistent` | python/models.py:81-82 | A refresh of an existing account keeps the tables consistent. |
| `Repository.UpdatedRow` | python/repository.py:114-133 | Updating an existing row in place writes the same row as creating one for it. |
| `Repository.RefreshTransactions` | python/repository.py:105-142 | The loops produce exactly `Replaced`'s table. They return one row per kept id, in first-occurrence order, each equal to its stored row. |
| `Repository.UpsertBatch` | python/repository.py:108-135 | The first loop's map, its `seen` set and its returned rows are those of the deduplicated batch. |
| `Repository.UpsertStep` | python/repository.py:109-134 | One pass keeps or skips its payload as deduplication does, and keeps the loop's state. |
| `Repository.UpsertPayload` | python/repository.py:113-134 | A kept payload moves the map and the returned rows on by one batch entry. |
| `Repository.DeleteRows` | python/repository.py:137-141 | The deletion loop leaves exactly `Prune`'s map. |
| `Repository.SelectOrdered` | python/repository.py:145-151 | `ORDER BY … LIMIT`: `min(limit, n)` distinct keys, in order, with no unlisted row ordered strictly before a listed one. |
| `Repository.Store.Restore` | python/resources.py:41-42 | A rollback returns the tables to the snapshot. |
| `Repository.Store.UpsertUser` | python/repository.py:21-29 | The new state is `UserUpserted`, the tables stay consistent, and the returned user is the stored one. |
| `Repository.Store.GetUserByToken` | python/repository.py:31-33 | No user, the single user holding the token, or an error exactly when two or more users hold it. |
| `Repository.Store.UpsertAccount` | python/repository.py:36-70 | The state is `AccountUpserted`'s, or unchanged on error. The returned account is the stored one. |
| `Repository.Store.ListAccounts` | python/repository.py:72-74 | The result is exactly the user's accounts, each once, sorted by name with `NULL` first. |
| `Repository.Store.GetAccount` | python/repository.py:76-77 | The account with that id exactly when there is one. |
| `Repository.Store.UpdateBalance` | python/repository.py:80-97 | The new state is `BalanceUpdated`'s, and the returned balance is the stored one. |
| `Repository.Store.ReplaceTransactions` | python/repository.py:100-142 | It fails, leaving the tables as they were (the session rolls back), exactly when some payload has a truthy id that is not a string (for a number or a boolean, by the model's choice). Otherwise the new state is `Replaced`'s, and one stored row is returned per kept id, in order. |
| `Repository.Store.ListTransactions` | python/repository.py:144-151 | At most `limit` of the account's transactions, each once, by date descending (`NULL` last) then `cached_at` descending. No row left out is newer than a listed one. |
| `Models.DeleteAccount` | python/models.py:51-62 | Deleting an account removes its balance and all its transactions, and keeps the users. |
| `Models.DeleteUser` | python/models.py:34-34 | Deleting a user removes it and all its accounts. |
| `Models.DeleteAccountConsistent` | python/models.py:51-62 | The cascade keeps the tables consistent and keeps every other account and transaction. |
| `Models.DeleteUserConsistent` | python/models.py:34-34 | The cascade keeps the tables consistent and keeps other users' accounts and transactions. |
| `Models.TextLeAntisymmetric` | python/repository.py:73-73 | Names that sort both ways are equal. |
| `Models.NameLeTotalPreorder` | python/repository.py:73-73 | `ORDER BY name` on a nullable column is a total preorder. |
| `Models.NewerTotalPreorder` | python/repository.py:148-148 | `ORDER BY date DESC, cached_at DESC` is a total preorder. |
| `Models.SerializeAccount` | python/resources.py:218-227 | The serialised account has exactly the seven keys, each holding its column. |
| `Models.Consistent` | python/models.py:20-82 | Primary keys match the rows' ids, and every account, balance and transaction points at an existing user or account. |
| `Values.Text` | python/models.py:42-47 | A String column keeps the text of a string and `NULL` for anything else. |
| `Values.IdOf` | python/repository.py:37-39 | An id is usable exactly when it is a non-empty string. A falsy value and a truthy value of another kind are both unusable. |
| `Values.IdOfTruthy` | python/repository.py:109-110 | `not tx_id` agrees with the usable-id test on strings and `None`. |
| `Values.Truthy` | python/resources.py:69-75 | Python truthiness: `None`, `False`, zero, and empty strings, lists and dicts are false; everything else is true. |
| `Values.Get` | python/resources.py:69-74 | `dict.get(k)`: the value under `k`, or `None` when the key is absent. |
| `Values.Or` | python/resources.py:69-73 | `a or b`: `a` when it is truthy, otherwise `b`. |
| `Values.AsPayloadList` | python/resources.py:82-83 | `list(...)` followed by `.get` on every element succeeds exactly when the provider's answer is a list of objects, an empty string or an empty dict. It keeps every element in order. |
| `Values.AsDecimal` | python/repository.py:154-160 | `None` gives `None`, and a string gives `Decimal` of it. An unparsable string gives `None`. An integer is exact. |
| `Values.AsDate` | python/repository.py:163-171 | A falsy value gives `None` and a date passes through. A string goes through `fromisoformat`, and any date produced from text is valid. |
| `Values.AsDecimalExact` | python/repository.py:158-158 | Every decimal written as text converts back to the same value, trailing zeros included (`"-4.50"` stays -4.50). |
| `Values.AsDateIso` | python/repository.py:166-169 | A valid date's ISO text converts to that date, and a date converts to itself. |
| `Decimals.ParseRender` | python/repository.py:157-158 | `Parse(Render(d)) == Some(d)`: text in the model's notation (`Render`) parses back to exactly the same coefficient and exponent, trailing zeros included. |
| `Decimals.Parse` | python/repository.py:157-158 | `Decimal(s)`: a string that parses is not blank once stripped; an unparsable string gives `None`. |
| `Decimals.ParsePadded` | python/repository.py:157-158 | White space around a written decimal is ignored. |
| `Dates.FromIsoFormat` | python/repository.py:169-170 | A parsed date is valid and its text has the ISO shape. An impossible date is refused. |
| `Dates.ParseIsoFormat` | python/repository.py:169-169 | Every valid date's `isoformat` parses back to it. |
| `Dates.IsoFormatOfParse` | python/repository.py:169-169 | A string `fromisoformat` accepts is the canonical ISO text of its date. |
| `Dates.LeapDay` | python/repository.py:169-170 | February 29 exists exactly in leap years. |
| `Dates.BeforeIsStrictTotalOrder` | python/repository.py:148-148 | Chronological order is irreflexive, transitive, total and asymmetric. |
| `PyStrings.Strip` | python/teller_api.py:92-92 | The result has no white space at either end. |
| `PyStrings.IsSpace` | python/teller_api.py:92-92 | The characters `str.isspace()` accepts, on which `strip()` and `split()` act. |
| `PyStrings.StripPadded` | python/teller_api.py:92-92 | `strip()` removes exactly the surrounding white space. |
| `PyStrings.Split` | python/resources.py:23-23 | `split()` yields non-empty words without white space. |
| `PyStrings.SplitJoin` | python/resources.py:23-23 | The words of `split()`, joined, are the string with its white space removed: nothing is lost, nothing added. |
| `PyStrings.SplitTwo` | python/resources.py:23-24 | A header of two words with any white space around and between them splits into exactly those two words. |
| `PyStrings.LowerAscii` | python/resources.py:24-24 | Lower-casing works character by character and keeps the length. |
| `Utf8.DecodeEncode` | python/teller_api.py:97-97 | Every string `encode()` writes decodes back to itself. |
| `Utf8.Encode` | python/teller_api.py:97-97 | `encode()` writes between one and four bytes per character. |
| `Base64.EncodedLengthQuanta` | python/teller_api.py:97-97 | `b64encode` writes `4 * ceil(n / 3)` characters. |
| `Base64.DecodeEncode` | python/teller_api.py:97-97 | Every byte string `b64encode` writes decodes back to itself. |
| `Base64.Encode` | python/teller_api.py:97-97 | `b64encode` writes `EncodedLength(n)` characters for `n` bytes. |
| `TellerApi.AfterFirst` | python/teller_api.py:96-96 | `split(" ", 1)[1]` is the text after the first space. |
| `TellerApi.BearerToBasic` | python/teller_api.py:91-98 | The value is stripped first. A "basic " value is kept. A "bearer " prefix is dropped, and the rest becomes the user-id of a Basic credential. Prefixes compare case-insensitively. |
| `TellerApi.BearerSpace` | python/teller_api.py:95-96 | After "bearer " the first space is the one ending the word, so the token is the text after it. |
| `TellerApi.BasicFor` | python/teller_api.py:97-98 | The credential starts with "Basic ". |
| `TellerApi.BasicForDecodes` | python/teller_api.py:97-98 | The credential decodes to "<token>:": the token is the user-id and the password is empty. |
| `TellerApi.BearerToBasicIdempotent` | python/teller_api.py:91-98 | Converting a converted value changes nothing. |
| `TellerApi.HandleResponse` | python/teller_api.py:101-109 | The payload is the JSON, or the text when the body is not JSON. The result is a success exactly when the status is not 4xx/5xx; otherwise an error carrying the status and payload. |
| `TellerApi.RequestFor` | python/teller_api.py:80-87 | The request goes to the provider's URL for the path, with the converted credential, JSON accepted, and the count. |
| `TellerApi.Fetch` | python/teller_api.py:75-88 | An exception of the request is `RequestFailed`, and only then. A response is read as `_handle_response` reads it: success exactly when the status is ok, with its payload; otherwise a provider error carrying `_handle_response`'s status and payload. |
| `Db.ReplacePrefix` | python/db.py:31-34 | `replace(p, q, 1)` on a string starting with `p` replaces that prefix. |
| `Db.Normalized` | python/db.py:29-34 | "postgres://" and "postgresql://" become "postgresql+psycopg://", keeping the rest; other URLs are unchanged. |
| `Db.WithSslMode` | python/db.py:39-41 | sslmode is joined with "?" when the URL has none, otherwise with "&". |
| `Db.BuildDatabaseUrl` | python/db.py:16-44 | A non-empty internal URL is normalised and gets a non-empty sslmode appended. Otherwise the result is `DATABASE_URL` or "sqlite:///teller.db", and sslmode is ignored. |
| `Db.NormalizedIdempotent` | python/db.py:29-34 | Normalising twice is normalising once. |
| `Db.NormalizedKeepsRest` | python/db.py:30-34 | The rewrite keeps everything after the scheme. |
| `Db.NormalizedOtherScheme` | python/db.py:32-34 | SQLite and other schemes pass through unchanged. |
| `Db.SslModeLast` | python/db.py:38-41 | The sslmode parameter ends the URL and is joined by exactly one separator. |
| `Resources.ParseBearerToken` | python/resources.py:19-26 | 401 "Authentication required" for an absent or empty header. Success exactly when the header splits into two words, the first "bearer" in any case; the token is then a non-empty word. |
| `Resources.ParseBearerTokenOf` | python/resources.py:23-26 | Every "Bearer <token>" header, with any white space around and between, yields its token. |
| `Resources.ParseBearerTokenScheme` | python/resources.py:24-25 | Any other first word gives 401 "Invalid authorization header". |
| `Resources.PyIntNumeral` | python/resources.py:149-149 | `int()` reads every integer of at most 4300 digits back from its numeral, with white space around. |
| `Resources.PyInt` | python/resources.py:149-151 | A parsed value starts, after stripping, with a digit or a sign, and its sign is the one written. |
| `Resources.PyIntDigitLimit` | python/resources.py:149-151 | A literal of more than 4300 digits, signed or not, is refused (`ValueError`, hence 400 "invalid-limit"). |
| `Resources.PyIntRejectsPoint` | python/resources.py:149-151 | A value with a decimal point is not an integer. |
| `Resources.CachedLimit` | python/resources.py:146-151 | `limit` defaults to 10 and always lies in 1..100. A non-integer gives 400 "invalid-limit". |
| `Resources.CachedLimitClamp` | python/resources.py:149-149 | An integer in range is kept; one below 1 becomes 1 and one above 100 becomes 100. |
| `Resources.LiveCount` | python/resources.py:190-195 | `count` defaults to 10; otherwise it is the parsed value. |
| `Resources.CountIn` | python/resources.py:191-193 | A parsed count is accepted exactly when it is in 1..100; otherwise 400 "invalid-count". |
| `Resources.Authenticated` | python/resources.py:47-52 | A bad header gives its 401. An unknown token gives 401 "Unknown access token", and several holders give 500. Success means exactly one holder, the returned user. |
| `Resources.Authenticate` | python/resources.py:47-52 | Authentication on the store returns `Authenticated`'s answer and changes nothing. |
| `Resources.ReadEnrollment` | python/resources.py:69-76 | The 400 "invalid-enrollment" comes exactly when the enrolment mapping and its user are dicts and the token or the user id is missing or falsy. Success comes exactly when both are truthy strings, and then carries that token, that id and the user's name. A body or member without `.get` gives 500. |
| `Resources.EnrollmentPart` | python/resources.py:69-70 | The enrolment is read from a truthy `"enrollment"` member when it is a dict, otherwise from the body itself (`{}` when the body is falsy). A truthy member or body that is not a dict has no `.get`. |
| `Resources.ReadNestedEnrollment` | python/resources.py:69-74 | The body nested under `"enrollment"` yields its token, user id and name. |
| `Resources.ReadFlatEnrollment` | python/resources.py:72-74 | A flat body with `access_token` is read too. |
| `Resources.ReadEnrollmentRequires` | python/resources.py:72-76 | A body with no truthy token, or with no truthy user id (a missing `user` included), is refused with 400, flat or nested under `"enrollment"`. |
| `Resources.UpsertAccounts` | python/resources.py:83-83 | The accounts are stored exactly when every payload has a usable id. The ids come back in provider order, and only accounts change. |
| `Resources.UpsertAccountsOwned` | python/resources.py:83-83 | Every enrolled id names an account of the user. No account is lost, and accounts not enrolled are unchanged. |
| `Resources.UpsertAccountsConsistent` | python/resources.py:80-83 | Storing the accounts keeps the tables consistent. |
| `Resources.PrimeBalance` | python/resources.py:86-90 | A provider error is skipped and leaves the tables as they were. An exception of the request, or a payload that is not a dict, fails the request. A dict is cached: the tables become `BalanceUpdated`'s, whose row for the account is that balance. Only balances change. |
| `Resources.PrimeTransactions` | python/resources.py:91-95 | A provider error is skipped and leaves the tables as they were. An exception of the request, an answer that is not a list of dicts, or an unusable id fails the request. A list is cached: the tables become `Replaced`'s, and the account then owns exactly its batch ids, less those another account held. Only transactions change. |
| `Resources.PrimeOne` | python/resources.py:85-95 | A provider error on the balance does not stop the transaction fetch. A dict balance is cached first, and the transactions are then primed on those tables, so the cached balance stays. A failure of the balance fetch other than a provider error fails the request. Two provider errors leave the tables unchanged. |
| `Resources.Primed` | python/resources.py:85-95 | Priming changes neither users nor accounts. |
| `Resources.PrimedFails` | python/resources.py:85-95 | An uncaught failure on one account fails the whole priming. |
| `Resources.PrimedCompletes` | python/resources.py:85-95 | When every fetch fails with a provider error or returns data the repository can store, every account is primed: provider errors never stop the priming of the other accounts. |
| `Resources.PrimedConsistent` | python/resources.py:85-95 | Priming keeps the tables consistent. |
| `Resources.PrimeOneConsistent` | python/resources.py:86-95 | Priming one existing account keeps the tables consistent. |
| `Resources.SerializeAt` | python/resources.py:105-105 | The response lists each enrolled account serialised, in order. |
| `Resources.ProviderAccounts` | python/resources.py:82-83 | A failure of `list_accounts` yields no account list. An answer is passed on exactly as `AsPayloadList` reads it. |
| `Resources.EnrollSpec` | python/resources.py:67-108 | A failure leaves the tables unchanged. A bad body gives its 400 before anything changes. A provider error on `list_accounts` rolls back with 500, user included. A success upserts the user and lists only the user's accounts. |
| `Resources.Enroll` | python/resources.py:78-107 | The session after the body is read: all or nothing. |
| `Resources.EnrollAccounts` | python/resources.py:83-107 | The answer is 200 exactly when every account upsert succeeds and the priming completes. Otherwise it is a 500 with the tables unchanged. A success lists one entry per provider account. |
| `Resources.EnrollSucceeds` | python/resources.py:67-108 | An enrolment goes through when the body names a token and a user, the provider lists accounts that all have ids, and every fetch either answers something storable or fails with a provider error. The answer is 200, the user row is upserted, and one entry is listed per provider account. |
| `Resources.EnrollAccountsSucceeds` | python/resources.py:83-107 | After the provider has listed accounts that all have ids, and every fetch either answers something storable or fails with a provider error, the answer is 200. |
| `Resources.EnrollListsEveryAccount` | python/resources.py:99-106 | A successful enrolment lists every account the provider returned, in order, and no partial-failure list. |
| `Resources.EnrollConsistent` | python/resources.py:78-97 | An enrolment keeps the tables consistent. |
| `Resources.EnrollAccountsConsistent` | python/resources.py:83-97 | Storing and priming the accounts keeps the tables consistent. |
| `Resources.PostEnrollment` | python/resources.py:67-108 | The handler on the store produces `EnrollSpec`'s response and tables. |
| `Resources.EnrollSession` | python/resources.py:78-107 | The session on the store produces `Enroll`'s response and tables. |
| `Resources.EnrollListed` | python/resources.py:83-107 | The two loops produce `EnrollAccounts`'s response and tables. |
| `Resources.StoreAccounts` | python/resources.py:83-83 | The first loop produces `UpsertAccounts`'s tables and ids. |
| `Resources.PrimeAccounts` | python/resources.py:85-95 | The second loop produces `Primed`'s tables. |
| `Resources.PrimeAccount` | python/resources.py:86-95 | One pass produces `PrimeOne`'s tables, and accounts do not change. |
| `Resources.SerializeRows` | python/resources.py:118-118 | Each account is serialised, in order. |
| `Resources.GetAccounts` | python/resources.py:111-120 | A 401 or 500 from authentication. Success lists exactly the caller's accounts, by name. |
| `Resources.GetCachedBalance` | python/resources.py:123-141 | 404 when the account is missing, belongs to another user, or has no cached balance. Otherwise the response carries the cached payload and its time. |
| `Resources.GetCachedTransactions` | python/resources.py:144-167 | The limit is checked before the caller, and an account the caller does not own gives 404. Success returns the account's `limit` newest transactions, newest first, with the newest row's time or `None`. |
| `Resources.Raws` | python/resources.py:163-163 | The stored payloads of the rows, in order. |
| `Resources.LiveBalanceSpec` | python/resources.py:170-185 | A failure leaves the tables unchanged. An account the caller does not own gives 404. A provider error gives 502 with its status and payload, while an exception of the request gives 500. Success caches and returns the balance. |
| `Resources.GetLiveBalance` | python/resources.py:170-185 | The handler on the store produces `LiveBalanceSpec`'s response and tables. |
| `Resources.LiveTransactionsSpec` | python/resources.py:188-215 | The count is checked first, then the caller and ownership. A provider error gives 502 and an exception of the request 500, both with the tables unchanged. An unusable id also gives 500. Success replaces the account's transactions and returns the fetched list. |
| `Resources.GetLiveTransactions` | python/resources.py:188-215 | The handler on the store produces `LiveTransactionsSpec`'s response and tables. |

## Left out

- Network, TLS and client certificates: the provider is a transport parameter (`TellerApi.Transport`). It answers with a response or fails with an exception; which exception it is does not matter, since none is caught. `create_connect_token` and its resource are not modelled.
- The engine, pool and session factory (`create_db_engine`, `create_session_factory`): library plumbing. The session scope is modelled only as commit-or-restore of the store.
- Reading environment variables: `Db.BuildDatabaseUrl` takes them as parameters.
- The wall clock: each request takes one `now` parameter, so every row written in a request gets the same time.
- `created_at` and `updated_at` columns: nothing reads them.
- Logging, `set_no_cache` and `ensure_json_serializable`/`to_serializable`: response formatting only. Amounts stay exact decimals.
- Falcon's decoding of the request body and query string: the handlers start from a decoded value and one string per parameter. Blank or repeated parameters are not modelled.
- Falcon error bodies: a response keeps only the status and the error title.
- Failing commits: a commit is assumed to succeed.
- The session's identity map: a repeated id within a request is modelled by the final table contents.
- Concurrency: requests are applied one at a time.
- Postgres `NULL` ordering and collation: the orders are SQLite's, the local default database. Text compares by code point and `NULL` sorts first.
- Ties in `list_accounts` and `list_transactions`: `Repository.Store.ListAccounts` and `Repository.Store.ListTransactions` leave the order of equal rows open.
- A negative `LIMIT`: the model's limit is a natural number. The handlers only pass 1..100.
- Numeric(18,2) rounding when rows are read back: values stay as parsed.
- `Values.AsDecimal`: NaN, Infinity, underscores, Unicode digits and negative zero are not modelled. Such values give `None`, or lose the sign of zero.
- `Values.AsDecimal`: a float's `repr` is taken as given rather than computed.
- `Values.AsDate`: only the "YYYY-MM-DD" form of `date.fromisoformat` is modelled, not the forms added in Python 3.11.
- `Values.Text`: a value that is neither a string nor `None` is stored as `NULL`. The database instead stores a number or a boolean as text, and a list or dict makes the write fail with a 500. One consequence is in `upsert_user`: when an existing user is given a truthy name that is not a string, the model keeps the old name, because the value reads as `None` and `None or user.name` applies. The source writes the new value, and the database stores it as text.
- `Resources.ReadEnrollment`: a truthy token or user id that is not a string becomes a 500. For a token that is the source's behaviour on any database, since `_bearer_to_basic` calls `.strip()` on it. For a user id it is the model's choice: the program stores a number as text on SQLite, and probably on PostgreSQL through the driver's casts.
- `Resources.PyIntNumeral`: `int()` is modelled for ASCII digits with single underscores. Other Unicode digits are not. The 4300-digit limit is CPython's default since 3.11; a raised limit is not modelled.
- `TellerApi.ListAccounts`, `TellerApi.GetAccountBalances` and `TellerApi.GetAccountTransactions`: these only choose the provider path.
- `Decimals.ParseRender`: `Render` is the model's own notation, not Python's `str(Decimal)`. For example, it writes Decimal(12, 3) as "12E+3" where Python writes "1.2E+4", and it writes 5E-7 as "0.0000005". The round trip is proved for that notation only.
- `Repository.AccountUpserted`, `Values.IdOf` and `Repository.IdsStorable`: a truthy id that is a number or a boolean fails the request in the model. The program stores it as text on SQLite, and probably on PostgreSQL too through the psycopg dialect's casts of String parameters. Converting such ids to text is not modelled.
