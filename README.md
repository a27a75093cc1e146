# tap-adjust report stream, modelled in Dafny

This project models the one stream of the tap-adjust Singer tap: `ReportStream`, in
`tap_adjust/streams.py`, and its day-by-day `DatePaginator`. The model covers:

- **Pagination**: one request per day, from the configured start date up to the earlier of the
  end date and today.
- **Selection**: `apply_catalog` turns the catalog's selected breadcrumbs into a dimension list
  and a metric list, and publishes the dimensions as the stream's key properties.
- **Schema**: `schema` gives every configured additional metric the JSON Schema
  `{"type": "number"}`.
- **Request parameters**: `get_url_params` builds the query parameters of one page.
- **Row post-processing**: `_reshape` drops `attr_dependency` and converts each numeric field to
  `int` or `Decimal` in place.
- **Error message**: `response_error_message` renders an HTTP error.

Module layout:

- `Wrappers`: `Option` and `Result`.
- `Seqs`: duplicate-free sequences and removal.
- `Digits`: decimal digit strings, Python's `str(int)` and the accepted subset of `int(str)`.
- `Calendar`: Python's proleptic Gregorian day ordinals (0001-01-01 is day 1),
  `date.fromordinal` and `str(date)`.
- `Pagination`: `DatePaginator` as a class with the base paginator's `current_value` and page
  count as fields.
- `Selection`: the classification and accumulation done by `apply_catalog`.
- `RequestParams`: the configuration record, `",".join`, and the parameter map.
- `Coercion`: JSON values, exact decimals (sign, coefficient and exponent, as `Decimal.as_tuple()`), the `int()` and `Decimal()`
  conversions, and the specification of the conversion loop.
- `HttpErrors`: the error message.
- `Streams`: the `ReportStream`, `Row` and `CatalogEntry` classes, whose methods update their
  fields as the Python code does.

Several things outside the stream become parameters:

- `DIMENSIONS`, `BASE_METRICS` and the declared field types of `ReportModel` are constructor
  parameters of `ReportStream`. `tap_adjust/model.py` is not part of this model.
- The catalog's resolved selection is an ordered sequence of `(breadcrumb, selected)` pairs.
- The current UTC date is a parameter `today`.
- The response URL's parsed path is a string field of `Response`.

Behaviour of the code worth noting:

- `apply_catalog` appends every selected dimension leaf as it comes, so a dimension selected
  twice is listed twice. Only the metric list goes through `list(set(...))`
  (`tap_adjust/streams.py:196` and `:204`).
- `_reshape` catches only `TypeError` (`tap_adjust/streams.py:231`). A numeric string that
  `int()` or `Decimal()` rejects raises `ValueError` or `InvalidOperation`, and that exception
  leaves `_reshape` and `post_process`. The keys converted before it keep their new values. In
  the model this is the outcome `Propagated`, which names the key and the error.
- `additional_metrics` is declared optional in `tap_adjust/tap.py:20`, but `schema` and
  `apply_catalog` index it with `[...]`. A configuration without it raises `KeyError` in both
  (`Schema` returns `Err`, `ApplyCatalog` returns `Failed`). In `apply_catalog` the dimension and
  metric lists have already been extended by then, and the catalog entry is untouched.
- `get_url_params` adds `currency` only when the option is set and non-empty
  (`tap_adjust/streams.py:175-178`); there is no default currency.
- `Decimal()` keeps the sign of zero: `"-0.0"` becomes a negative zero. Its sign, `as_tuple()`
  and text differ from those of `Decimal("0.0")`, though the two compare equal
  (`tap_adjust/streams.py:230`). In the model, equality of `Decimal` values is `as_tuple()`
  equality, which is finer than Python's `==` on decimals.
- Any additional metric goes through `Decimal()`, so a value such as `"N/A"` under a key the data
  model does not declare raises `InvalidOperation` and stops `_reshape`.

## Model

| member | source | states |
|---|---|---|
| Pagination.DatePaginator.constructor | tap_adjust/streams.py:45-55 | the paginator remembers the start and end dates; the cursor starts at the start date and no page has been counted |
| Pagination.DatePaginator.HasMore | tap_adjust/streams.py:57-67 | more pages exist exactly when the cursor is before both the end date and today; once the cursor reaches either, there are none |
| Pagination.DatePaginator.GetNext | tap_adjust/streams.py:69-81 | the next token is entry `count` of the consecutive day sequence starting at the start date; after the first page it is later than the start |
| Pagination.DatePaginator.Advance | tap_adjust/streams.py:67-79 | one step of the base paginator as assumed here: the count goes up by one, the cursor moves one day on and becomes `get_next()`, and the cursor stays `count` days after the start; a step taken while `has_more` held leaves the cursor at most min(end, today), so pages never run past the bound |
| Pagination.PageTokensConsecutive | tap_adjust/streams.py:79 | the k-th page token is the start date plus k days: no gaps and no repeats |
| Pagination.PageTokensStrictlyIncrease | tap_adjust/streams.py:79 | an earlier page always has an earlier token |
| Pagination.PageTextsDistinct | tap_adjust/streams.py:79 | within Python's date range, no two pages render the same date text, so no day is requested twice |
| Pagination.GetNextIgnoresCursor | tap_adjust/streams.py:79 | `get_next` depends only on the start date and the count, not on the cursor |
| Pagination.NoPagesPastBound | tap_adjust/streams.py:67 | a fresh paginator whose start is not before min(end, today) has `has_more` false from the start |
| Streams.ReportStream.constructor | tap_adjust/streams.py:93-107 | a fresh stream has empty dimension and metric lists |
| Streams.ReportStream.Schema | tap_adjust/streams.py:116-122 | every additional metric gets `{"type": "number"}`; every other base property is unchanged and no other key is added; without `additional_metrics` the result is `KeyError` |
| Streams.ReportStream.GetNewPaginator | tap_adjust/streams.py:124-133 | a new paginator over the configured start and end dates, at its first page |
| Streams.ReportStream.PrimaryKeys | tap_adjust/streams.py:135-142 | the primary keys are the dimension list itself |
| Streams.ReportStream.SetPrimaryKeys | tap_adjust/streams.py:144-151 | assigning the primary keys leaves them as they were |
| Streams.ReportStream.GetUrlParams | tap_adjust/streams.py:153-182 | the request parameters of the page are those of `UrlParams` for the stream's current dimensions, metrics and configuration |
| RequestParams.UrlParams | tap_adjust/streams.py:166-178 | the keys are exactly the five base keys plus `currency` if and only if a non-empty currency is configured; `date_period` is the token's text, a colon, and the text again; dimensions and metrics are comma-joined in order; attribution type and source default to `click` and `dynamic` |
| RequestParams.GetOr | tap_adjust/streams.py:171-172 | a configured option wins over the default |
| RequestParams.DatePeriodIsOneDay | tap_adjust/streams.py:168 | `date_period` is 21 characters, two copies of the same `YYYY-MM-DD` text around a colon, and that text reads back as the page's date |
| RequestParams.Join | tap_adjust/streams.py:169-170 | `",".join`: the first name opens the text, and for comma-free names a comma appears exactly when there are two or more |
| RequestParams.SplitJoin | tap_adjust/streams.py:169-170 | splitting a comma-join of comma-free names at commas gives the names back |
| RequestParams.DimensionsParamRoundTrip | tap_adjust/streams.py:169 | the `dimensions` parameter splits back into the dimension list |
| RequestParams.ExampleRequest | tap_adjust/streams.py:166-178 | for 2021-05-01 with dimensions app, day and metric installs and no currency: exactly the base keys, `2021-05-01:2021-05-01`, `app,day`, `installs` |
| Streams.ReportStream.ApplyCatalog | tap_adjust/streams.py:190-207 | dimensions become the old list followed by the selected dimension leaves in selection order, with `day` appended when missing; metrics become duplicate-free and, as a set, the old metrics, the selected base metrics and the additional metrics; the catalog entry's key properties, its table key properties and the primary keys all equal the dimensions; the replication key `day` is always among the dimensions; without `additional_metrics`: `KeyError`, the metrics only extended, the entry untouched |
| Selection.Classify | tap_adjust/streams.py:195-198 | dimension membership is tested first, then base-metric membership, otherwise the leaf is unknown |
| Selection.SelectedDimensionsMembers | tap_adjust/streams.py:193-196 | a name is among the selected dimensions exactly when it is a dimension and some selected non-empty breadcrumb ends in it |
| Selection.SelectedMetricsMembers | tap_adjust/streams.py:193-198 | a name is among the selected metrics exactly when it is a base metric, not a dimension, and some selected non-empty breadcrumb ends in it |
| Selection.UnknownLeafIgnored | tap_adjust/streams.py:195-198 | a leaf in neither set reaches neither list |
| Selection.DimensionsAndMetricsDisjoint | tap_adjust/streams.py:195-198 | no selected leaf lands in both lists |
| Selection.WithDay | tap_adjust/streams.py:200-201 | `day` is always in the result; the list is unchanged when it already held `day`, otherwise `day` is appended |
| Selection.DistinctList | tap_adjust/streams.py:204 | `list(set(s))` has no duplicates and the same members as `s`, in an unspecified order |
| Seqs.Remove | tap_adjust/streams.py:221 | the key order after `pop(k)`: exactly the other keys remain, and when `k` was absent the order is unchanged (`Seqs.RemoveAbsent`) |
| Seqs.RemoveAbsent | tap_adjust/streams.py:221 | removing an absent key leaves the key order as it was |
| Streams.Row.Pop | tap_adjust/streams.py:221 | `pop` removes the key from the values and from the key order, keeping the other keys in order |
| Streams.Row.Set | tap_adjust/streams.py:230 | assigning an existing key changes its value only and keeps its place |
| Streams.ReportStream.Reshape | tap_adjust/streams.py:219-236 | after `attr_dependency` is dropped, the keys are converted in row order up to the first one whose conversion raises; that key and its error are reported, otherwise the same row is returned |
| Streams.ReportStream.ConvertFields | tap_adjust/streams.py:223-236 | the loop over a snapshot of the keys leaves exactly the values of `CoercedUpTo` at the first raising key, and reports that key or returns the row |
| Streams.ReportStream.ConvertField | tap_adjust/streams.py:224-234 | one key: an uncaught error is reported and nothing changes; otherwise the value becomes the converted value, or stays as it was on `TypeError` |
| Streams.ReportStream.PostProcess | tap_adjust/streams.py:238-248 | post-processing is exactly `_reshape` |
| Streams.ReshapedKeys | tap_adjust/streams.py:219-236 | after `_reshape`, `attr_dependency` is in neither the keys nor the values, every other key is kept in its order (all keys unchanged when the row had no `attr_dependency`), and a completed call returns the row it was given |
| Coercion.DeclaredType | tap_adjust/streams.py:224-227 | a key of the model has its declared type; any other key is a `Decimal` |
| Coercion.Step | tap_adjust/streams.py:228-230 | a non-numeric field is left as it is; an `int` field goes through `int()` and a `Decimal` field through `Decimal()` |
| Coercion.After | tap_adjust/streams.py:229-234 | a successful conversion stores the converted value; a `TypeError` keeps the old value |
| Coercion.ToInt | tap_adjust/streams.py:230 | `int()` raises `TypeError` on null and objects, `ValueError` exactly on strings that are not integers, and gives the parsed integer otherwise; a boolean becomes 0 or 1 and a `Decimal` is truncated toward zero (`Truncate`) |
| Coercion.ToDecimal | tap_adjust/streams.py:230 | `Decimal()` raises `TypeError` on null and objects, `InvalidOperation` exactly on strings that are not decimal numbers, gives the decimal the string denotes (`ParseDecimal`) otherwise, and keeps integers and booleans exactly, sign included |
| Coercion.FromInt | tap_adjust/streams.py:230 | `Decimal(i)` has the value `i`, exponent zero, and is negative exactly when `i` is |
| Coercion.ParseDecimal | tap_adjust/streams.py:230 | `Decimal(s)` on a string, within the modelled grammar (no surrounding whitespace, underscores, non-ASCII digits or `NaN`/`Infinity`): a result comes only from a non-empty text, and it is negative exactly when the text starts with `-` (so `"-0"` and `"-0.0"` are negative zeros) |
| Coercion.ParseDecimalNegated | tap_adjust/streams.py:230 | a leading `-` is accepted exactly when the rest is, and it sets the sign and keeps the coefficient and exponent |
| Coercion.NegativeZeroKept | tap_adjust/streams.py:230 | `Decimal("-0.0")` is negative, coefficient 0, exponent -1: its sign and `as_tuple()` differ from those of `Decimal("0.0")`, while its value (signed coefficient and exponent) is the same, so the two compare equal |
| Coercion.ForeignCharRejected | tap_adjust/streams.py:230 | `Decimal()` raises `InvalidOperation` on every string holding a printable ASCII character that is not a digit, a sign, a point, `e`/`E`, `_`, or a letter of `nan`, `snan`, `inf` or `infinity` in either case (such as the `/` of `"N/A"`); Python rejects these strings too |
| Coercion.Truncate | tap_adjust/streams.py:230 | `int()` of a `Decimal` truncates toward zero: a non-zero result has the decimal's sign, and its magnitude is the whole part of the decimal's magnitude |
| Coercion.ToDecimalAgreesWithToInt | tap_adjust/streams.py:230 | a string that `int()` accepts, `Decimal()` accepts with the same value and exponent zero |
| Coercion.ParseDecimalOfInteger | tap_adjust/streams.py:230 | an integer string reads as that integer with exponent zero, negative exactly when it has a minus sign |
| Coercion.ParseDecimalOfPoint | tap_adjust/streams.py:230 | `a.b` reads as the digits of `ab` with exponent minus the length of `b` |
| Coercion.FirstRaise | tap_adjust/streams.py:223-234 | the position of the first key, in row order, whose conversion raises: every key before it converts without an uncaught error |
| Coercion.CoercedUpToAt | tap_adjust/streams.py:223-234 | after n steps, each key among the first n holds its converted value and every other key its original value |
| Coercion.ScanAt | tap_adjust/streams.py:223-234 | a key not yet reached still holds its original value, and it is where the loop stops exactly when its own conversion raises |
| Coercion.ReshapedValues | tap_adjust/streams.py:224-234 | after a completed loop, non-numeric fields are unchanged, unknown keys hold their `Decimal()` value (the decimal their string denotes, for a string), `TypeError` fields are unchanged, and integer strings of `int` fields hold their integer |
| Coercion.CoercedPair | tap_adjust/streams.py:223-234 | a two-key row in which neither conversion raises ends with both keys converted |
| Coercion.NotANumberRaises | tap_adjust/streams.py:229-231 | `int("N/A")` raises `ValueError`, which the loop does not catch |
| Coercion.DecimalNotANumberRaises | tap_adjust/streams.py:224-231 | `"N/A"` under an undeclared key (an additional metric) makes `Decimal()` raise `InvalidOperation`, which the loop does not catch |
| Coercion.NullIsKept | tap_adjust/streams.py:229-234 | a null numeric field raises `TypeError` and keeps its null value |
| Coercion.ExampleRow | tap_adjust/streams.py:222-230 | `"10"` in an `int` field becomes 10, and `"0.0"` in a `Decimal` field becomes `Decimal("0.0")` |
| Streams.ReportStream.ResponseErrorMessage | tap_adjust/streams.py:261-267 | the error message is `ErrorMessage` of the status code, the body text, the parsed URL path and the stream's path |
| HttpErrors.ErrorMessage | tap_adjust/streams.py:267 | the f-string: the message starts with the code's text and is 26 characters longer than the code, body text and path together; its exact layout is `ErrorMessageLayout` |
| HttpErrors.ErrorLabel | tap_adjust/streams.py:262-265 | the label is `Client` exactly for codes 400 to 499, and `Server` for every other code |
| HttpErrors.EffectivePath | tap_adjust/streams.py:261 | the URL's path when it is non-empty, otherwise the stream's configured path |
| HttpErrors.ErrorMessageStartsWithCode | tap_adjust/streams.py:267 | the message opens with the code's decimal text and a space, and that text parses back to the code |
| HttpErrors.ErrorMessageLayout | tap_adjust/streams.py:267 | after the code and a space come the label, `" Error: "`, the body text, `" for path: "` and the effective path last, with nothing else: each piece is at its position and the length is their sum |
| HttpErrors.ErrorMessageDeterminesCode | tap_adjust/streams.py:267 | two equal messages have the same status code |
| HttpErrors.Example404 | tap_adjust/streams.py:261-267 | a 404 with body `not found` renders as `404 Client Error: not found for path: ` followed by the URL's path |
| Digits.IntToString | tap_adjust/streams.py:267 | `str(i)` is non-empty and starts with `-` exactly for negative numbers; `IntToStringRoundTrip` is its inverse |
| Digits.ParseInt | tap_adjust/streams.py:230 | `int(s)` accepts only non-empty texts; it inverts `str` (`IntToStringRoundTrip`) |
| Digits.IntToStringRoundTrip | tap_adjust/streams.py:267 | the decimal text of every status code parses back to it |
| Digits.IntToStringInjective | tap_adjust/streams.py:267 | different codes have different texts |
| Calendar.ToOrdinal | tap_adjust/streams.py:79 | `date.toordinal()`: the day number of a valid date falls inside its own year's days |
| Calendar.FromOrdinal | tap_adjust/streams.py:79 | adding days to a date is exact: the date of ordinal n is a valid date up to year 9999 whose ordinal is n |
| Calendar.ToOrdinalInjective | tap_adjust/streams.py:79 | different valid dates have different ordinals |
| Calendar.FromOrdinalOfToOrdinal | tap_adjust/streams.py:79 | every date Python can hold comes back from its ordinal |
| Calendar.FormatDate | tap_adjust/streams.py:168 | `str(date)` is ten characters, four, two and two digits separated by `-` |
| Calendar.DateText | tap_adjust/streams.py:168 | the text of a page token is ten characters and has no colon, so `date_period` splits at its one colon |
| Calendar.FormatDateRoundTrip | tap_adjust/streams.py:168 | the `YYYY-MM-DD` text of a date reads back as that date |
| Calendar.DateTextInjective | tap_adjust/streams.py:168 | different days have different texts |
| Calendar.ExampleDate | tap_adjust/streams.py:168 | 2021-05-01 is day 737911 and renders as `2021-05-01` |

## Left out

- The authenticator (`tap_adjust/streams.py:25-38`): it only wraps the Singer SDK's API key
  authenticator and adds a bearer header.
- The SDK calls in `apply_catalog`: `catalog.get_stream`, `resolve_selection`,
  `super().apply_catalog` and the mapper re-registration (`tap_adjust/streams.py:190-191`,
  `212`, `217`). The resolved selection is an input and the catalog entry is a plain class.
- The `primary_keys` getter returns the same list object as `dimensions`, and the catalog entry
  holds that object as well. The model copies lists by value, so this sharing is not captured.
- Pagination.DatePaginator.Advance: the base paginator's `advance`, and how it treats the first
  page, are not part of this model. `Advance` is an assumption: one page counted, the cursor set
  to `get_next()`. Nothing is claimed about how many pages a range with start after end yields.
- `datetime.strptime` on the configured dates (`tap_adjust/streams.py:131-132`) and
  `datetime.utcnow()` (`tap_adjust/streams.py:67`): the parsed dates are configuration fields
  and `today` is a parameter.
- `urlparse` (`tap_adjust/streams.py:261`): the parsed path is a field of `Response`.
- Calendar.FromOrdinal: `OverflowError` past 9999-12-31 is not modelled. Ordinals are limited to
  Python's date range by the type `DateOrdinal`. The page tokens are shown distinct only for
  ranges inside it.
- Coercion.ToInt, Coercion.ToDecimal, Coercion.ParseDecimal and Coercion.ForeignCharRejected:
  only the ASCII grammar is accepted. A string is an
  optional sign and digits for `int()`, and for `Decimal()` digits with an optional point and an
  optional exponent. Not modelled: surrounding whitespace, underscores, non-ASCII digits,
  `NaN`/`Infinity`, and floats and lists as inputs. The values that reach `_reshape` are the
  API's strings, nulls and objects. So the model rejects `" 1"`, `"1_0"`, `"NaN"` and `"inf"`,
  which Python's `Decimal()` accepts, and `ParseDecimal`'s sign rule holds only within the
  modelled grammar (`Decimal(" -1")` is negative in Python). `ForeignCharRejected` asks for a
  character outside all of these, so its conclusion also holds of Python.
- Truncation of a `Decimal` by `int()` is modelled, but decimal contexts, rounding and the
  precision of `Decimal` arithmetic are not: decimals are exact sign, coefficient and exponent
  triples.
- `self.logger` calls (`tap_adjust/streams.py:180`, `209-210`, `232-234`): logging only.
- Row extraction by `records_jsonpath` and the HTTP transport: these belong to the SDK.
- `tap_adjust/tap.py` (configuration schema and stream discovery) and the test files: no logic
  of the stream.
- The order of the metric list produced by `list(set(...))`, which depends on Python's string
  hashing: `DistinctList` picks an arbitrary order and only its members and distinctness are
  specified.
