# Blog platform middleware and admin actions, modelled in Dafny

This project models two small pieces of sequential logic from a Django
blogging platform and proves properties of them.

**Request performance recording** (`blogs/middleware.py`,
`RequestPerformanceMiddleware`). Each request gets an endpoint key, or no
key. HEAD and OPTIONS requests get no key, and neither do paths the URL
resolver cannot resolve. Every `feed` view shares the key `"<METHOD> feed/"`.
Any other view's key is `"<METHOD> <route>"`. A measured request appends a
latency sample to its endpoint's list in the shared `request_metrics`
dictionary. The list is then trimmed to its 50 most recent samples. In the
model:

- `Middleware.PatternName` is `get_pattern_name`. The resolver is an input:
  the request carries an optional `ResolverMatch`, and `None` stands for a
  path that does not resolve.
- `Middleware.MetricsRegistry` is the dictionary, as a class with a
  `map<string, seq<Sample>>` field that its `Record` method updates.
- A ghost field `log` holds every sample ever recorded per endpoint. The
  class invariant says each stored list is exactly the most recent 50
  entries of that log.
- `Middleware.RequestPerformanceMiddleware.Call` is `__call__`. The clock
  readings and the database time are its parameters.

**Admin bulk actions** (`blogs/admin.py`).

- `Admin.BlockBlog` blocks the selected blogs and deactivates their users.
- `Admin.MigrateExternalStylesheet` rewrites each selected blog that has an
  external stylesheet. An `@import` rule goes in front of its custom
  styles. The reference in the rule is the stylesheet with Python's
  `replace('url(', '')` and then `replace(')', '')` applied, modelled by
  `Strings.RemoveAll`. The external stylesheet is cleared and
  `overwrite_styles` is set.
- `Admin.HitTable.Cleanup` deletes the selected page hits dated strictly
  before today minus 7 days.

Blogs and users are classes whose fields the actions assign. A queryset of
blogs is a sequence of distinct `Blog` objects. The hit table is a class
holding a sequence of `Hit` records, and the selection is a set of hit ids.

The lemmas that take an endpoint key apart (`PatternNameSplits`,
`SameKeyIff`) assume the HTTP method contains no space, as HTTP method tokens never do.
Under that assumption `SplitKey` recovers the method and the route part
from a key.

## Model

| member | source | states |
|---|---|---|
| `Middleware.PatternName` | blogs/middleware.py:37-48 | A request has no endpoint key exactly when its method is HEAD or OPTIONS or its path does not resolve. |
| `Middleware.KeyRoute` | blogs/middleware.py:44-46 | The route part of a key: `feed/` for every `feed` view, whatever its route, and the matched route for any other view. Its properties are stated by `PatternNameKey` and `SameKeyIff`. |
| `Middleware.PatternNameKey` | blogs/middleware.py:44-46 | For any method that is measured and any path that resolves, the key is the method, one space, then `KeyRoute` of the match. For a `feed` view the key is therefore exactly the method plus ` feed/`. |
| `Middleware.PatternNameSplits` | blogs/middleware.py:44-46 | When the method has no space, `SplitKey` of a measured request's key gives back the method and the route part. |
| `Middleware.SplitKeyOf` | blogs/middleware.py:45-46 | Splitting `method + " " + route` at its first space gives back the method and the route, when the method has no space. This is the inverse of the key format. |
| `Middleware.SameKeyIff` | blogs/middleware.py:44-46 | Two measured requests share a key if and only if their methods agree and their route parts agree. So all `feed` requests with one method share a key, whatever their routes. |
| `Middleware.Recent` | blogs/middleware.py:73-74 | Trimming keeps min(n, 50) entries of an n-entry history. |
| `Middleware.RecentIsSuffix` | blogs/middleware.py:73-74 | The entries kept are the newest ones of the history, in their order. |
| `Middleware.Appended` | blogs/middleware.py:64-74 | After one append and trim the list holds 1 to 50 samples and the new sample is last. A list of n < 50 becomes exactly the old list plus the sample. A list of 50 or more ends with exactly 50, and a list of exactly 50 drops its oldest sample. |
| `Middleware.RecentAppend` | blogs/middleware.py:64-74 | Appending to the trimmed list and trimming again gives the same list as trimming the whole history once. So the stored list is always the 50 most recent samples. |
| `Middleware.History` | blogs/middleware.py:64 | Reading an endpoint from the dictionary gives its list, or the empty list for an endpoint not seen before, as reading a `defaultdict(list)` does. `Record` and `Call` state their results through it. |
| `Middleware.MetricsRegistry.constructor` | blogs/middleware.py:13 | The dictionary starts empty and satisfies the invariant. |
| `Middleware.MetricsRegistry.Record` | blogs/middleware.py:63-74 | The list for the endpoint becomes `Appended` of its old list, or of the empty list on first use, so a new endpoint's list is just the sample. No other endpoint's list changes. The invariant (stored list = most recent 50 of the full log) is kept. |
| `Middleware.RequestPerformanceMiddleware.constructor` | blogs/middleware.py:33-35 | The middleware is bound to the shared registry it is given. The skipped methods are the constant `SkipMethods`, HEAD and OPTIONS. The downstream handler is not a field. |
| `Middleware.RequestPerformanceMiddleware.Call` | blogs/middleware.py:50-76 | Call returns `PatternName` of the request. Without a key nothing is recorded. With a key, the endpoint's list becomes `Appended` of its old list with the sample (total = end − start, db, compute = total − db, timestamp = start). Nothing else changes. |
| `Strings.RemoveAll` | blogs/admin.py:123 | `str.replace(pat, '')` scans left to right without overlaps. The result is never longer than the input. |
| `Strings.RemoveKeepsCharacters` | blogs/admin.py:123 | Removal only deletes: the multiset of the result's characters is contained in the input's. |
| `Strings.RemoveAbsent` | blogs/admin.py:123 | Text without an occurrence of the pattern is returned unchanged. |
| `Strings.RemoveChar` | blogs/admin.py:123 | Removing a one-character pattern deletes every copy of that character and keeps every other character, with its count. |
| `Strings.RemoveIsSinglePass` | blogs/admin.py:123 | One pass does not remove occurrences that removal creates: `"urlurl(("` becomes `"url("`, which still contains `"url("`. |
| `Admin.BlockBlog` | blogs/admin.py:99-104 | Every selected blog ends blocked, and its user ends inactive. The styling fields do not change. Only the selected blogs and their users may change. |
| `Admin.ImportReference` | blogs/admin.py:123 | The reference has no `)`. It keeps only characters of the external stylesheet. |
| `Admin.ImportReferenceOfPlainPath` | blogs/admin.py:123 | A stylesheet with no `url(` and no `)` is imported verbatim. |
| `Admin.ImportRule` | blogs/admin.py:123 | The new custom styles of a migrated blog: `@import '`, the reference, `';\r\n\r\n`, then the old custom styles. Its properties are stated by `ImportRuleShape`. |
| `Admin.ImportRuleShape` | blogs/admin.py:123 | The migrated styles are `@import '`, the reference, `';\r\n\r\n`, then the old custom styles. So the old styles survive as an exact suffix. |
| `Admin.MigrationMayLeaveUrl` | blogs/admin.py:123 | The migrated reference may still contain `url(`, for example for the stylesheet `urlurl((`. |
| `Admin.MigrateExternalStylesheet` | blogs/admin.py:120-126 | A selected blog with a non-empty external stylesheet gets the import rule in front of its old custom styles, an empty external stylesheet and `overwrite_styles` set. A selected blog with an empty one is unchanged. No blog's blocked flag changes, and only selected blogs may change. |
| `Admin.Expired` | blogs/admin.py:165 | A hit the cleanup deletes: it is in the selection and its `created_date` is strictly before the cutoff day. `Surviving` and `Cleanup` state their results through it. |
| `Admin.Surviving` | blogs/admin.py:164-165 | A hit remains if and only if it was in the table and is not both selected and dated before the cutoff. No hit is added. |
| `Admin.SurvivingAppend` | blogs/admin.py:164-165 | Filtering keeps order: filtering two runs of rows gives the concatenation of the filtered runs. |
| `Admin.SurvivingNoneExpired` | blogs/admin.py:164-165 | When no row is expired, the table is unchanged. |
| `Admin.HitTable.Cleanup` | blogs/admin.py:164-165 | The table becomes `Surviving` of its old rows with cutoff today − 7. A hit remains exactly when it was present and not (selected and created before the cutoff). |

## Left out

- `TimeoutMiddleware` (blogs/middleware.py:79-103): its whole behaviour is a thread pool, futures, a wall-clock deadline and cancellation. Concurrency is not modelled.
- `track_db_time` (blogs/middleware.py:18-29): it keeps thread-local state and wraps database execution. The database time it measures is a parameter of `Call`.
- Clock readings (`time.time()`): the start and end instants are parameters of `Call`. Times are integers, not floating-point seconds.
- The downstream handler (`get_response`): `Call` does not run it. The response passes through unchanged in both branches of the source, so the model returns only the endpoint key.
- The missing lock around `request_metrics` (blogs/middleware.py:63, 72): the registry is modelled as single-threaded, so lost updates between concurrent requests are not captured.
- Django's `resolve` and the request's `resolver_match`: the model takes their combined outcome as an optional `ResolverMatch` on the request.
- `validate_domains` (blogs/admin.py:109-118): it makes network connectivity checks and prints their result.
- `update_score` (blogs/admin.py:141-143): it calls a model method whose source is not part of this model.
- The display helpers and querysets of the admin pages (blogs/admin.py:20-97, 131-162, 175-177): they are library calls (`format_html`, `reverse`, `escape`, `Count` annotations) with no logic of their own.
- `.save()` persistence and the log line `block_blog` prints: the model assigns the fields in memory only.
- blogs/apps.py: it only logs at startup.
- Strings.RemoveAll: requires a non-empty pattern. Python's `replace` with an empty pattern inserts the replacement between characters, but the source only removes `url(` and `)`.
- Admin.HitTable.Cleanup: `created_date` is a day number. The Hit model's source is not part of this model. If the field is a datetime, Django compares it with the midnight that starts the cutoff date, and that gives the same result as comparing day numbers.
- Admin.MigrateExternalStylesheet: the selected blogs must be distinct objects, as rows of a queryset are. The `exclude` filter and the loop are one loop that tests each blog's external stylesheet when it reaches that blog. With distinct blogs this matches filtering first.
