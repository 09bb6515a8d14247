# Data-access layer and authentication rules, modelled in Dafny

This project models two PHP classes of a small web application.

- **`Database`** (include/php/classes/Database.php) is a thin layer over a MySQL connection. Static helper functions turn PHP arrays into SQL text:
  - `helperValue` / `helperValueList` for literal values;
  - `helperAttributeList` for identifiers with `AS`/`ASC`/`DESC` keywords;
  - `helperConditionList` / `helperWhere` for conditions;
  - `helperOrderBy` and `helperLimit` for the tail clauses.

  Methods `select`, `insert`, `update`, `count` and `delete` assemble statements from those pieces. `query` records the statement in `lastQuery`, and turns a non-zero error number from the driver into a `DatabaseException` carrying the statement. A single process-wide instance is created by `init` and fetched with `getInstance`.
- **`Auth`** (include/php/classes/Auth.php) keeps the logged-in user in one static slot and mirrors the user id into the session under `uid`. It covers:
  - logging in by e-mail and password;
  - logging in again from the session;
  - checking roles, with an admin override;
  - validating a new password, under error codes 2, 3 and 4;
  - choosing the `crypt` prefix of the configured hash schema.

## How the model is laid out

| module | file | models |
|---|---|---|
| `Wrappers` | wrappers.dfy | `Option` and `Result` |
| `PhpStrings` | php_strings.dfy | `strtoupper`, `strtolower`, `implode`, `explode`, int-to-string, `empty` on strings |
| `SqlValues` | sql_values.dfy | `helperValue`, `helperValueList` |
| `SqlAttributes` | sql_attributes.dfy | `isKeyword`, `helperAttributeList` |
| `SqlConditions` | sql_conditions.dfy | `helperConditionList`, `helperWhere` |
| `SqlClauses` | sql_clauses.dfy | `helperOrderBy`, `helperLimit` |
| `DatabaseLayer` | database.dfy | statement assembly, `query`, the connection object and the static instance |
| `Authentication` | auth.dfy | the `Auth` class |

### What each kind of code becomes

- **Pure helpers** (`isKeyword`, `helperLimit`, `validateNewPassword`, `getPasswordSchemaPrefix`, `hasPermission`) become functions. `helperValue` and `helperWhere` become the methods `HelperValue` and `HelperWhere`, proved equal to the functions `ValueSql` and `WhereSql`, because they call the loop helpers.
- **Loop helpers** (`helperValueList`, `helperAttributeList` with its `++$i` skip, `helperConditionList`, `helperOrderBy`, and the SET list of `update`) become methods with loops. Each is proved equal to a specification function, and the lemmas are stated about those functions.
- **The connection** (`Database`) is a class:
  - `lastQuery` is a field that `Query` updates;
  - a ghost `sent` log lists the statements handed to the driver, in order.
- **The static instance slot** is the field `instance` of the class `Registry`.
- **The authentication state** is the class `Auth`, holding the `loggedInUser` slot and the session map.

### Inputs the model takes as parameters

- **The driver.** Its answer to each statement is a parameter: errno, error text, and the result reduced to the insert id and the first column of the first row. Whether the connection opens is also a parameter.
- **`real_escape_string`** is an uninterpreted function parameter `esc`.
- **`crypt`** is an uninterpreted function parameter.
- **The user table** is a sequence of users. `User::find` and `User::findWhereFirst` return the first match.
- **Configuration constants.** `MIN_PASS_LENGTH` and `PASS_HASH_SCHEMA` are parameters.

### Where the code and its doc comments disagree

The model follows the code in the first three cases and the doc comment in the fourth.

- An alias after `AS` is quoted like any other identifier: `c AS alias` renders as `` `c` AS `alias` `` (`SqlAttributes.AliasExample`).
- The doc comment at Database.php:475 promises `` ORDER BY `attr1` ASC `` for a plain column list. The code emits no direction (`SqlClauses.OrderByColumnExample`).
- `select`, `count`, `update` and `delete` put a space before the WHERE clause, and that clause starts with its own space. So two spaces precede `WHERE`.
- The doc comment at Database.php:407 promises the raw fragment for a one-element condition. The code pushes the array itself, which renders as "Array". The model renders the fragment (see Findings and Left out).

## Model

| member | source | states |
|---|---|---|
| PhpStrings.Split | include/php/classes/Auth.php:88 | explode always yields at least one part |
| PhpStrings.JoinSplit | include/php/classes/Auth.php:88 | imploding explode's parts with the delimiter gives the input back |
| PhpStrings.SplitCount | include/php/classes/Auth.php:88-89 | explode yields one part more than the number of delimiters |
| PhpStrings.SplitPartsFree | include/php/classes/Auth.php:88 | no part contains the delimiter |
| PhpStrings.UpperIdempotent | include/php/classes/Database.php:317 | strtoupper applied twice equals strtoupper once |
| PhpStrings.UpperLength | include/php/classes/Database.php:317 | strtoupper keeps the length |
| PhpStrings.UpperFixed | include/php/classes/Database.php:444 | a string without lower-case letters is unchanged by strtoupper |
| PhpStrings.LowerIdempotent | include/php/classes/Auth.php:86 | strtolower applied twice equals strtolower once |
| PhpStrings.LowerKeepsCount | include/php/classes/Auth.php:86-88 | lower-casing keeps the number of any non-letter character, e.g. '@' |
| SqlValues.HelperValue | include/php/classes/Database.php:369-382 | the method's result equals the value's SQL rendering ValueSql |
| SqlValues.HelperValueList | include/php/classes/Database.php:389-401 | the loop's result equals the parenthesised, comma-joined rendering of the items in order |
| SqlValues.ItemsSqlAt | include/php/classes/Database.php:393-395 | one rendered item per value, the j-th being the j-th value's rendering |
| SqlValues.NullRendering | include/php/classes/Database.php:371-373 | a value renders as NULL exactly when it is null or a case variant of "null" |
| SqlValues.ValueSqlShape | include/php/classes/Database.php:371-381 | null-like values give NULL, lists go to the list rendering, other strings and ints are escaped and single-quoted |
| SqlValues.EmptyListRendering | include/php/classes/Database.php:397-400 | an empty list renders as () |
| SqlAttributes.IsKeyword | include/php/classes/Database.php:314-320 | AS, ASC and DESC in any letter case; its properties are NotKeywordBySize and KeywordCaseInsensitive |
| SqlAttributes.HelperAttributeList | include/php/classes/Database.php:328-361 | the loop's result equals the ", "-joined entries, a raw string verbatim and an array as its scanned pieces joined by spaces |
| SqlAttributes.ScanSegments | include/php/classes/Database.php:341-352 | the index loop with its in-loop skip produces the rendering of the scan's grouping |
| SqlAttributes.TokenizeStep | include/php/classes/Database.php:343-351 | one scan step: a keyword alone, a non-keyword pair as `a`.`b`, else `a` |
| SqlAttributes.TokenizeFlatten | include/php/classes/Database.php:342-352 | the scan uses every segment exactly once, in order |
| SqlAttributes.TokenizeWellFormed | include/php/classes/Database.php:342-352 | the scan never leaves a lone non-keyword before another non-keyword |
| SqlAttributes.TokenizeUnique | include/php/classes/Database.php:342-352 | the scan's grouping is the only well-formed grouping of the segments |
| SqlAttributes.QualifiedExample | include/php/classes/Database.php:346-347 | [t, c] renders as `t`.`c` |
| SqlAttributes.AliasShape | include/php/classes/Database.php:343-354 | a non-keyword, a keyword and a non-keyword render as `c` K `a`, joined by single spaces |
| SqlAttributes.AliasExample | include/php/classes/Database.php:343-351 | [c, AS, alias] renders as `c` AS `alias` |
| SqlAttributes.NotKeywordBySize | include/php/classes/Database.php:314-320 | a word shorter than two or longer than four characters is not a keyword |
| SqlAttributes.KeywordCaseInsensitive | include/php/classes/Database.php:316-318 | keyword detection ignores letter case |
| SqlAttributes.VerbatimList | include/php/classes/Database.php:332-334 | a list of raw strings is emitted verbatim, joined by ", " |
| SqlConditions.HelperConditionList | include/php/classes/Database.php:419-450 | the loop's result equals the supported fragments joined by the upper-cased connector |
| SqlConditions.HelperWhere | include/php/classes/Database.php:458-468 | the result equals the WHERE clause function |
| SqlConditions.FragmentsConcat | include/php/classes/Database.php:432-447 | the fragments of a concatenation are the concatenated fragments |
| SqlConditions.FragmentsStep | include/php/classes/Database.php:432-447 | one loop step appends the entry's fragment, if any |
| SqlConditions.UnsupportedDropped | include/php/classes/Database.php:433-446 | an entry of unsupported arity contributes nothing, wherever it stands |
| SqlConditions.FragmentsAllSupported | include/php/classes/Database.php:432-447 | with only supported entries, one fragment per entry, in input order |
| SqlConditions.WhereEmptyIff | include/php/classes/Database.php:458-468 | no WHERE clause exactly for an empty array, otherwise " WHERE " + the list |
| SqlConditions.FlatIsSingleton | include/php/classes/Database.php:422-424 | a flat condition is treated as a list of one |
| SqlConditions.ConnectorCases | include/php/classes/Database.php:426-449 | AND/OR in any case join as " AND "/" OR ", any other connector c as upper(c) + " " |
| SqlConditions.TwoConditions | include/php/classes/Database.php:432-449 | two supported conditions are rendered in order around the connector |
| SqlConditions.IsNullExample | include/php/classes/Database.php:412-444 | 'is'/'IS NOT' with null render as `attr` IS NULL / `attr` IS NOT NULL |
| SqlConditions.RawFragmentAsWritten | include/php/classes/Database.php:434-436 | as written, a raw fragment renders as "Array" and not as itself |
| SqlConditions.RawFragmentVerbatim | include/php/classes/Database.php:407 | a raw fragment is inserted as it is, also inside WHERE |
| SqlClauses.HelperOrderBy | include/php/classes/Database.php:479-499 | the loop's result equals the ORDER BY clause function |
| SqlClauses.OrderByEmptyIff | include/php/classes/Database.php:481-483 | no ORDER BY clause exactly for null or an empty array |
| SqlClauses.SingleColumnPath | include/php/classes/Database.php:487-488 | a non-keyword column alone renders quoted |
| SqlClauses.DirectedPath | include/php/classes/Database.php:490-491 | a column with a keyword direction renders as `c` DIR |
| SqlClauses.OrderByEntries | include/php/classes/Database.php:485-498 | entries keep their order: `c` for a column, `c` upper(d) for a directed one, after " ORDER BY " |
| SqlClauses.NonKeywordDirection | include/php/classes/Database.php:486-492 | a direction that is not a keyword is taken as a column: `c`.`D` |
| SqlClauses.TwoDirected | include/php/classes/Database.php:485-498 | two directed entries render in order, comma-separated |
| SqlClauses.OrderByDirectedExample | include/php/classes/Database.php:474 | the documented example gives " ORDER BY `attr1` ASC, `attr2` DESC" |
| SqlClauses.OrderByColumnExample | include/php/classes/Database.php:472-488 | null and [] give ""; a plain column list gets no ASC |
| SqlClauses.LimitSql | include/php/classes/Database.php:509-523 | the clause is empty or starts with " LIMIT " |
| SqlClauses.LimitEmptyIff | include/php/classes/Database.php:509-523 | no LIMIT exactly for a non-positive int or an array not of two; otherwise " LIMIT " + s, n or a,b |
| SqlClauses.LimitExamples | include/php/classes/Database.php:503-520 | 0 gives "", 3 gives " LIMIT 3", [3, 4] gives " LIMIT 3,4", "" gives " LIMIT " |
| DatabaseLayer.AnswerFailure | include/php/classes/Database.php:142-152 | query throws exactly on a non-zero errno, with the driver's text and the statement |
| DatabaseLayer.Database.constructor | include/php/classes/Database.php:38-46 | the connection keeps the database name and starts with no last query |
| DatabaseLayer.Database.Query | include/php/classes/Database.php:136-153 | lastQuery becomes the statement, which is sent; the outcome is the driver's result or the DatabaseException |
| DatabaseLayer.Database.Select | include/php/classes/Database.php:189-200 | sends exactly SelectSql (table, WHERE, ORDER BY, LIMIT) and returns query's outcome |
| DatabaseLayer.Database.Insert | include/php/classes/Database.php:213-229 | no values: null, nothing sent; otherwise sends InsertSql and returns the insert id or the exception |
| DatabaseLayer.Database.Update | include/php/classes/Database.php:241-260 | no values: nothing sent; otherwise sends UpdateSql (SET list from the (col, '=', v) triples) |
| DatabaseLayer.Database.Count | include/php/classes/Database.php:275-287 | sends CountSql and returns the first column's integer or the exception |
| DatabaseLayer.Database.Delete | include/php/classes/Database.php:297-306 | sends DeleteSql and reports the exception, if any |
| DatabaseLayer.InsertStatement | include/php/classes/Database.php:221-224 | the column list is the raw keys joined by ", ", then VALUES and the parenthesised values |
| DatabaseLayer.UpdateSetClause | include/php/classes/Database.php:247-256 | the SET part is the ", "-joined list of `col` = v, in input order |
| DatabaseLayer.DeleteStatement | include/php/classes/Database.php:299-303 | delete always issues the single equality WHERE `attr` = v |
| DatabaseLayer.SelectWhereAfterDoubleSpace | include/php/classes/Database.php:189-199 | with conditions, select reads "SELECT * FROM `t`  WHERE ..." then ORDER BY and LIMIT |
| DatabaseLayer.CountWhereAfterDoubleSpace | include/php/classes/Database.php:275-284 | with conditions, count reads "SELECT COUNT(`a`) FROM `t`  WHERE ..." |
| DatabaseLayer.SelectWithoutClauses | include/php/classes/Database.php:189-199 | with the defaults, select reads "SELECT * FROM `t` " |
| DatabaseLayer.Registry.constructor | include/php/classes/Database.php:9 | the slot starts empty |
| DatabaseLayer.Registry.IsInitialized | include/php/classes/Database.php:121-124 | whether the slot is set; its meaning is carried by Registry.GetInstance (fails exactly when it is false) and Registry.Init (once it holds, the slot stays as it was) |
| DatabaseLayer.Registry.GetInstance | include/php/classes/Database.php:65-72 | throws while uninitialized, otherwise returns the instance |
| DatabaseLayer.Registry.Init | include/php/classes/Database.php:97-115 | no-op once initialized; missing parameters or a refused connection throw and leave the slot empty; otherwise a fresh instance with the merged database name |
| DatabaseLayer.SettingsOverride | include/php/classes/Database.php:100-105 | keys of a settings array override the positional arguments |
| DatabaseLayer.SettingsPerKey | include/php/classes/Database.php:100-104 | each present key beats its positional argument, each absent key falls back to it |
| DatabaseLayer.PositionalFallback | include/php/classes/Database.php:100-104 | init(array('host' => 'h'), 'u', 'p', 'd') merges to host h, user u, password p, database d |
| DatabaseLayer.MergeMissingIff | include/php/classes/Database.php:100-109 | init rejects exactly when host, user, password or database is missing after the merge, with InvalidArgumentException |
| DatabaseLayer.MissingHostKeyAsWritten | include/php/classes/Database.php:104-108 | as written, a settings array without 'host' passes the null check with the array as host |
| DatabaseLayer.MergeAgreesWithAsWritten | include/php/classes/Database.php:100-109 | whenever a settings array has a 'host' key, the corrected and as-written merges agree |
| Authentication.FindWhereFirst | include/php/classes/Auth.php:96-101 | the result is a user of the table with that username and domain; None exactly when none matches |
| Authentication.Find | include/php/classes/Auth.php:66 | the result is a user of the table with that id; None exactly when none has it |
| Authentication.CheckPasswordByHash | include/php/classes/Auth.php:180-183 | crypt(password, hash) === hash; its use is stated by LoginAcceptedIff and Auth.Login (login succeeds exactly when it holds for the matching user) |
| Authentication.Auth.constructor | include/php/classes/Auth.php:10 | nobody is logged in at first |
| Authentication.Auth.IsLoggedIn | include/php/classes/Auth.php:27-30 | whether the slot is set; its meaning is carried by Auth.GetUser (set exactly when it holds), Auth.LoginUserByModel (holds after it) and HasPermissionCases (no permission without it) |
| Authentication.Auth.GetUser | include/php/classes/Auth.php:38-41 | returns the slot, which is set exactly when isLoggedIn holds |
| Authentication.Auth.HasPermission | include/php/classes/Auth.php:126-136 | permission implies a logged-in user, whose role is the required one unless it is the admin role |
| Authentication.Auth.LoginUserByModel | include/php/classes/Auth.php:27-50 | the slot holds the user, so isLoggedIn holds and getUser returns it; the session is unchanged |
| Authentication.Auth.LoginUserViaSession | include/php/classes/Auth.php:56-73 | logs in the user found for a set, non-empty session uid; otherwise the state is unchanged |
| Authentication.Auth.Init | include/php/classes/Auth.php:16-19 | same as loginUserViaSession |
| Authentication.Auth.Login | include/php/classes/Auth.php:84-116 | true exactly when a matching user's hash checks; then the user is logged in and uid set; otherwise nothing changes |
| Authentication.LoginCandidateMatches | include/php/classes/Auth.php:86-101 | the user login finds is in the table and lower(email) == username@domain |
| Authentication.LoginCaseInsensitive | include/php/classes/Auth.php:86 | the e-mail's letter case does not change the outcome |
| Authentication.LoginNeedsOneAt | include/php/classes/Auth.php:88-91 | an e-mail without exactly one '@' is rejected without a lookup |
| Authentication.LoginAcceptedIff | include/php/classes/Auth.php:104-115 | login succeeds exactly when the candidate exists and crypt(password, hash) == hash |
| Authentication.LoginSessionRoundTrip | include/php/classes/Auth.php:56-111 | with unique ids, the session a login leaves behind logs the same user in again |
| Authentication.HasPermissionCases | include/php/classes/Auth.php:126-136 | false when nobody is logged in; an admin has every role; anyone else exactly their own |
| Authentication.AllPermissionsIffAdmin | include/php/classes/Auth.php:126-136 | passing every permission check is the same as being a logged-in admin |
| Authentication.ValidateNewPassword | include/php/classes/Auth.php:150-171 | every error has code 2, 3 or 4; acceptance implies two equal, non-empty passwords of at least the minimum length |
| Authentication.ValidateAcceptsIff | include/php/classes/Auth.php:150-171 | accepted exactly for two equal, non-empty passwords of at least the minimum length |
| Authentication.ValidateCodes | include/php/classes/Auth.php:150-171 | code 2 for an empty field, 3 for a mismatch, 4 for a short password, in that order |
| Authentication.ZeroPasswordIsEmpty | include/php/classes/Auth.php:153-157 | "0" is refused as an empty field, first or repeated |
| Authentication.GetPasswordSchemaPrefix | include/php/classes/Auth.php:189-202 | every prefix starts and ends with $, as a crypt salt prefix does |
| Authentication.SchemaPrefixIff | include/php/classes/Auth.php:189-202 | SHA-256 → $5$rounds=5000$, BLOWFISH → $2a$09$, anything else (SHA-512 included) → $6$rounds=5000$ |

## Left out

- DatabaseLayer.Database.Query: a non-zero error number stands for a driver that reports errors through `errno`. As configured, with `mysqli_report(MYSQLI_REPORT_ERROR | MYSQLI_REPORT_STRICT)` at Database.php:44, mysqli throws its own `mysqli_sql_exception` from the call at line 140. That exception leaves `query` unwrapped and without the statement, and the model does not capture it.
- **The mysqli driver** (connection, `query`, `errno`/`error`, `insert_id`, `fetch_array`, `intval`): its answer is a parameter, so a MySQL server's behaviour is not modelled.
- **`real_escape_string`** is uninterpreted. Nothing is claimed about escaping correctness.
- **`helperValue` before `init`.** It calls `getInstance()->escape`, so before `init` it would throw. The model passes the escape function in, so this failure is not modelled.
- **`crypt`, `rand`, `microtime`, `base64_encode`** are foreign and non-deterministic. So `generatePasswordHash` is not modelled: only the prefix table it uses is.
- **`changeUserPassword`, `User::save` and the `User` class.** The User class is not part of this model, so users are plain records. `User::ROLE_ADMIN` is taken as the string "admin", because the model that defines it is not part of this model.
- **User ids** are strings, both in the table and in the session. PHP's loose comparison between an int id and a string session value is not modelled.
- **PHP loose typing**, restricted to typed variants:
  - non-string, non-array attribute entries being wrapped;
  - `count()` on non-arrays;
  - `isset` on null elements;
  - numeric-string array keys that become integer keys;
  - a single condition whose first element is an array, which the code reads as a nested list.

  A `$conditions` is either a flat condition or a list of conditions. An order-by entry is either an integer key plus column, or a column plus direction.
- **Character semantics.** `strlen` counts bytes and the model counts characters. `strtoupper`/`strtolower` are ASCII-only.
- **`__clone`** is the empty protected method that forbids cloning the instance. It has no counterpart, because Dafny objects cannot be cloned.
- **`setInstance`, `getInsertId` and `escape`** are one-line accessors. They are folded into `Registry.Init`, `Database.Insert` and the `escape` field.
- DatabaseLayer.Registry.Init: applies the corrected merge `MergeConfig` of the second finding. As written, `init` with a settings array that has no 'host' key hands the array to the mysqli constructor as host instead of throwing InvalidArgumentException. What mysqli then does with it is not modelled. That path is modelled only by `MergeConfigAsWritten` and `MissingHostKeyAsWritten`.
- SqlConditions.HelperConditionList: renders a one-element condition as its raw fragment (`ConditionSql`), as the doc comment promises. The code renders it as "Array", which only `ConditionSqlAsWritten` models. `WhereSql`, `SelectSql`, `UpdateSql` and `CountSql` inherit the fragment rendering.
- **The PHP notice** that `implode` raises on a nested array (see Findings) is not modelled.

## Findings

| source | as written | input that shows it | evidently intended | confidence | as-written member | corrected member |
|---|---|---|---|---|---|---|
| include/php/classes/Database.php:436 | a one-element (raw) condition pushes the array itself, which `implode` renders as "Array" | `` helperConditionList(array(array("`attr` = '3'"))) `` | the raw fragment itself, as the doc comment at line 407 says | high, not executed | SqlConditions.RawFragmentAsWritten | SqlConditions.RawFragmentVerbatim |
| include/php/classes/Database.php:104 | a settings array without 'host' keeps the array in `$host`, so the null check passes and the array is handed to the mysqli constructor as host | `init(array('user' => 'u', 'password' => 'p', 'database' => 'd'))` | an InvalidArgumentException for the missing host | medium, not executed | DatabaseLayer.MissingHostKeyAsWritten | DatabaseLayer.MergeMissingIff |
