# libtekticket: a verified model of the ticket views and records

libtekticket is a Django helpdesk module: users file tickets against
inventory items, technicians are assigned to them, every edit is written to
an audit log (History), and the ticket list lets a user filter and sort the
tickets and keep those choices as named saved views ("vistas").

This project models, in Dafny, the two pieces of that module with exact
behaviour:

- **views.py**: the audit-log writer `update_history`, the construction of
  `TicketList.order_by_fields`, and `TicketList.get_queryset`. That method
  reads up to three sort selectors and four filter fields from the POST
  body. It then saves them under a view name, loads a saved view, or deletes
  one and falls back to the user's default view. This file is modelled
  imperatively. A `Database` object holds the History log and the saved-view
  table. A `TicketList` object carries `filter_object` and `order_by`. Loops
  become `for` loops with invariants. Each method is proved against a
  specification function (`HistoryRows`, `SortSpec`, `FilterSpec`,
  `SubmittedQuery`, `LoadedVista`, `DeletedVista`, `Respond`), and the
  module `ViewsProperties` proves what those functions promise.
- **models.py**: the urgency domain, the History record with its display
  string and its listing order, and what `on_delete=SET_NULL` does when a
  referenced item, technician or user is deleted. This file is modelled with
  pure functions and lemmas.

The queryset that `get_queryset` returns is a value, never run. It is either
every ticket, or a selection by a filter map with an ordering. JSON encoding
and decoding, and whether the ORM accepts a filter or an ordering without
raising, are the parameters of an `Orm` record. An exception that nothing
catches is the outcome `Raised`.

Files: `wrappers.dfy` (Option), `pystr.dfy` (the Python string built-ins
used: `join`, `split`, `isdecimal`, `str(int)`, string order),
`querydict.dfy` (the POST body as an ordered list of key/value pairs),
`models.dfy`, `savedviews.dfy` (the saved-view table in primary-key order),
`views.dfy`, `views_properties.dfy`.

Behaviour modelled as the code has it:

- The trailing comma in the `old_value` assignment of `update_history` makes
  a present old value a one-element tuple. It is the variant
  `OldValue.SingletonTuple`, not a string.
- The fallback to the default view sits, by its indentation, inside the
  `delete_vista` branch. A `get_vista` request whose view does not decode
  lists every ticket and deletes nothing. A `get_vista` request whose stored
  filter the ORM rejects raises; the view is not deleted.
- The default-view lookup filters on the user and `is_default` only. A
  default view saved for another model is picked too.
- With no saved view to apply, `get_queryset` returns every ticket,
  unfiltered and unordered.
- The fallback passes the sort list to `order_by` as one argument, not
  spread. This is `Ordering.OrderByOneList`, accepted or rejected by its own
  ORM predicate.
- `Ticket` has no location reference in models.py, so none is modelled.
- The four filter fields (`mmodel`, `mmodel__category`, `condition`,
  `role`) are not fields of `Ticket`. Whether the ORM accepts a filter on
  them is left to the `Orm` parameter. When it rejects one (Django raises
  `FieldError`), the submitted query raises after `get_or_create` has run
  (views.py:225, 230): the named view is left as it was, or blank if it was
  just created, and nothing is saved (`ViewsProperties.SubmitUpserts`).
- A query saved with a sort and no filter keeps the view's earlier filter
  string. Loading that view decodes that string, so the saved sort is
  applied only together with the earlier filter
  (`ViewsProperties.SortOnlySaveThenLoad`). A view created this way keeps
  the blank filter string, which does not decode, so loading it lists every
  ticket and the sort is never applied
  (`ViewsProperties.SortOnlyNewNameLoadsAll`).

## Model

| member | source | states |
|---|---|---|
| Models.CleanUrgency | models.py:34-44 | a submitted urgency is admitted exactly when it is the value of one of the five choices, and is then stored unchanged; the stored type admits only 1 to 5 |
| Models.TruncateForDisplay | models.py:122 | the displayed new value has at most 20 characters; it equals the value exactly when the value has at most 20; a longer value shows its first 17 characters then "...", 20 in all |
| Models.ObjectIdText | models.py:132 | `str()` of the object id: "None" for NULL, else the decimal digits of the id with a leading "-" exactly when it is negative |
| Models.FallbackDisplay | models.py:132 | the fallback string is, in order, the literal "mdy: ", the model name, ": ", `str()` of the object id, " [", the field name, `] changed to "`, the truncated new value and a closing quote |
| Models.FallbackDisplayIgnores | models.py:132 | the fallback string does not depend on the timestamp, the old value or the user, because `"mdy".format(...)` drops its argument |
| Models.ListedBeforeTotal | models.py:117-118 | any two History rows are ordered one way or the other, and a newer row is always listed before an older one |
| Models.ListedBeforeTransitive | models.py:117-118 | the History ordering (when descending, modelname ascending, objectid ascending) is transitive |
| Models.ListedBeforeTies | models.py:117-118 | two rows tie in the ordering only when they share when, modelname and objectid |
| Models.DeleteItem | models.py:22-28 | deleting an item removes only that item; every ticket survives, the ones that referred to it with `item` NULL and otherwise unchanged, the others untouched |
| Models.DeleteTechnician | models.py:52-58 | deleting a technician removes only that technician; every ticket survives, the ones assigned to it unassigned and otherwise unchanged |
| Models.DeleteUser | models.py:109-115 | deleting a user removes only that user; every technician, ticket and History row survives, with `user` or `submitted_by` set to NULL where it named that user |
| Models.DeleteItemKeepsRefsIntact | models.py:22-28 | after deleting an item no ticket refers to a missing row |
| Models.DeleteTechnicianKeepsRefsIntact | models.py:52-58 | after deleting a technician no ticket refers to a missing row |
| Models.DeleteUserKeepsRefsIntact | models.py:7-13 | after deleting a user no technician, ticket or History row refers to a missing user |
| PyStr.SplitJoin | views.py:252 | splitting a comma join at ',' gives back the joined list when no entry contains a comma |
| QueryDict.GetList | views.py:204 | `getlist` returns the values posted under the key in the order posted: a value is listed exactly when some posted pair carries it under the key, and the list is empty exactly when no pair has the key |
| QueryDict.GetListConcat | views.py:204 | `getlist` of a body posted in two parts is the first part's list followed by the second's |
| QueryDict.Get | views.py:198 | `get` returns a value exactly when the key was posted, and that value is the one of the last pair posted under the key |
| SavedViews.GetOrCreate | views.py:225 | `get_or_create` returns a row with the requested key; it keeps every stored row, appends a blank row exactly when none had the key, and keeps keys unique |
| SavedViews.UniqueKeyCount | views.py:225 | with unique keys, `get` finds at most one row, and exactly one when any row has the key |
| SavedViews.RemoveKey | views.py:268 | `filter(...).delete()` leaves no row with the key and keeps every other row |
| SavedViews.RemoveKeyKeepsOrder | views.py:268 | the rows left by `filter(...).delete()` are the table's rows at strictly increasing positions, so they keep the relative order that `.last()` at views.py:272-274 reads |
| SavedViews.DeleteAt | views.py:289 | `vista.delete()` removes that row and only that row |
| SavedViews.LastMatching | views.py:272-274 | `.last()` is the matching row with the highest primary key, and none exactly when no row matches |
| Views.Database.CreateHistory | views.py:26-35 | `History.objects.create` appends one row to the log and changes no saved view |
| Views.Database.VistaGetOrCreate | views.py:225 | the table after `get_or_create` is `GetOrCreate` of the table before, and keys stay unique |
| Views.Database.VistaSave | views.py:237 | `vista.save()` replaces that row and keeps keys unique |
| Views.Database.VistaFilterDelete | views.py:268 | the table after the delete is `RemoveKey` of the table before |
| Views.Database.VistaLast | views.py:272-274 | the index found is `LastMatching` on the table, a matching row |
| Views.Database.VistaDelete | views.py:289 | the table after `vista.delete()` is `DeleteAt` of the table before |
| Views.UpdateHistory | views.py:20-36 | the log after the call is the log before plus `HistoryRows` for `changed_data`; saved views are untouched |
| ViewsProperties.HistoryRowsOnePerField | views.py:21-34 | one row per changed field, in order (none for no change), each with the given model name, object id, user, field name and `str()` of the cleaned value; no old value exactly when the field has no initial value, else the one-element tuple of `str()` of it |
| Views.OrderFields | views.py:176-182 | two entries per orderable field: its name, then "-" and its name |
| Views.BuildOrderByFields | views.py:175-182 | the class-level loop builds `OrderFields` of `item` and `urgency` |
| ViewsProperties.OrderByFieldsAllowList | views.py:176-182 | the sort allow-list is item, -item, urgency, -urgency, labelled Item, Item reverse, Urgency, Urgency reverse |
| ViewsProperties.AllowedHasNoComma | views.py:176-182 | no allowed sort name contains a comma |
| Views.Matching | views.py:197-199 | the inner loop appends only copies of the posted value, and nothing exactly when the value is not an allowed name |
| Views.MatchOrderField | views.py:197-199 | the inner loop appends `Matching` of the posted value against the allowed names |
| ViewsProperties.MatchingDistinct | views.py:197-199 | against distinct allowed names the inner loop appends the posted value once if allowed, else nothing |
| Views.ParseOrderBy | views.py:194-199 | the loops over the three selectors build `SortSpec` of the POST body |
| ViewsProperties.SortChoices | views.py:194-199 | the sort list is each selector's posted value that is on the allow-list, in selector order 0, 1, 2: at most three names, all allowed, anything else dropped |
| ViewsProperties.SortStringRoundTrip | views.py:252 | splitting the sort string at ',' gives back the non-empty allowed sort list that views.py:234 joined |
| Views.Decimals | views.py:205-208 | the kept entries are posted entries made only of decimal digits, and none are kept exactly when no entry is |
| Views.DecimalEntries | views.py:205-208 | the inner loop collects `Decimals` of the posted values |
| Views.AddFieldFilters | views.py:202-214 | one turn of the filter loop is `FilterStep` for that field |
| Views.BuildFilterObject | views.py:201-214 | the filter loop builds `FilterSpec` of the POST body over the four filter fields |
| ViewsProperties.FilterSpecKeys | views.py:201-214 | every filter key is `<f>__in` or `<f>` for a field `f` looped over |
| ViewsProperties.FilterSpecAt | views.py:201-214 | `<f>__in` is present exactly when `filter__<f>__in` was posted non-empty with a decimal entry, and then holds every posted value, non-decimal ones included; `<f>` is present, as None, exactly when `filter__<f>__none` was posted |
| ViewsProperties.TicketFilterShape | views.py:201-214 | the ticket list's filter keys come only from mmodel, mmodel__category, condition and role, with the presence and values of `FilterSpecAt` for each |
| Views.FallbackVista | views.py:272-276 | the fallback view is a row of the requesting user |
| ViewsProperties.FallbackChoice | views.py:272-276 | the fallback is the user's last default view of any model; else the user's last view; else a blank view appended |
| Views.TicketList.constructor | views.py:172-182 | a new list view starts with an empty `filter_object` and `order_by` and the allow-list of `OrderFields` |
| Views.TicketList.GetQueryset | views.py:187-295 | one call returns, and leaves the saved views, `filter_object` and `order_by` as, `Respond` of the state before; History is untouched and keys stay unique |
| Views.TicketList.SubmitQuery | views.py:192-239 | a submitted query has the effect `SubmittedQuery` |
| Views.TicketList.SaveQuery | views.py:223-239 | upserting the named view for a non-empty query has the effect `SavedQuery`: `filter_object` and `order_by` are set before the ORM can raise, and the row is saved only when it does not |
| Views.TicketList.LoadVista | views.py:241-259 | a load request has the effect `LoadedVista` |
| Views.TicketList.FallbackIndex | views.py:272-276 | the fallback lookup picks `FallbackVista` of the table |
| Views.TicketList.DeleteVista | views.py:261-293 | a delete request has the effect `DeletedVista` |
| ViewsProperties.GetOrCreateKeepsOthers | views.py:225 | with unique keys, after `get_or_create` exactly one row has the key, it is the stored row or a blank one when none was stored, keys stay unique, and every row with another key is kept and none added |
| ViewsProperties.SubmitUpserts | views.py:221-239 | after a submitted query with filters or a sort, exactly one saved view exists for (user, "libtekticket.ticket", name), keys stay unique and every other saved view is unchanged; when the ORM accepts the query, that view's filter string is overwritten only if filters were posted, its sort string only if a sort was, and the filtered, ordered selection is returned; when it rejects it, the request raises and the view is the stored one, or a blank one when none was stored |
| ViewsProperties.SubmitNothingValid | views.py:221 | a submitted query with no valid filter and no valid sort saves nothing, changes nothing and lists every ticket |
| ViewsProperties.SaveThenLoad | views.py:225-253 | loading a view by the name a query with both a filter and a sort was just saved under returns the same filter and sort, when decoding inverts encoding and the ORM accepts them, and changes no saved view |
| ViewsProperties.LoadStoredRow | views.py:241-259 | loading a name whose view is stored changes no saved view and returns the decoded stored filter with the split stored sort, raises when the ORM rejects them, and lists every ticket when the filter does not decode |
| ViewsProperties.SortOnlySaveThenLoad | views.py:225-253 | loading a view just saved with a sort and no filter decodes the filter string the view held before the save and applies the saved sort only with it; no saved view changes |
| ViewsProperties.SortOnlyNewNameLoadsAll | views.py:225-253 | a sort-only query saved under a new name, loaded back, lists every ticket when the blank filter string does not decode |
| ViewsProperties.LoadKeepsViews | views.py:248-259 | a load request deletes no saved view, adds at most a blank one for the name, and lists every ticket when the stored filter does not decode |
| ViewsProperties.LoadRejectedFilterRaises | views.py:250-259 | a load request whose stored filter decodes but is rejected by the ORM raises |
| ViewsProperties.DeleteRemovesNamed | views.py:265-268 | after a delete request with a name, the user has no saved view of that name for the ticket list |
| ViewsProperties.DeleteFallbackOutcome | views.py:278-293 | the fallback view is applied as stored when it decodes and is accepted; otherwise it is deleted, the table shrinks by one, and every ticket is listed |
| ViewsProperties.RespondKeepsKeysUnique | views.py:225-293 | every request keeps the saved-view keys unique, so `get_or_create` never meets two rows |

## Left out

- The `send_mail` call of the update view: network I/O.
- The Django ORM and `json`: encoding, decoding and acceptance of a filter or an ordering are the parameters of `Orm`. The filter map's key order and the JSON text are not modelled.
- The `Vista` model belongs to another package and is not part of this model. A new row is assumed to have empty `filterstring`, `sortstring`, `model_name` and `name` and `is_default` false. Rows are assumed to be in primary-key order, the order `.last()` uses.
- Create, update, detail and delete views, their forms and formsets, `get_success_url` and `get_context_data`: framework plumbing.
- The first branch of `History.__str__`: it looks the changed object up through the app registry and the database. Only the fallback string is modelled, and the date it would format is dropped by `"mdy".format` anyway.
- TicketNote's cascade on ticket deletion: the trailing comma after its `ticket` field means no foreign key exists.
- The `print` calls in `History.__str__` and `get_queryset`: console output only.
- tests.py, forms.py, migrations, urls.py, admin.py and the template tags: a stale copy of another app's views, declarative configuration and routing.
- Views.UpdateHistory: all rows of one call carry the same timestamp `now`, where the database stamps each row when it is inserted.
- Models.ListedBefore: where NULL object ids sort is the parameter `nullsFirst`, because it depends on the database; model names compare by code point, not by the database collation.
- PyStr.IsDecimal: accepts the ASCII digits only, where Python's `isdecimal` also accepts other Unicode decimal digits.
- Views.Title: `title()` is modelled over ASCII letters only.
- Views.Database.Valid: two saved views with the same (user, model name, name) are excluded, so the `MultipleObjectsReturned` error of `get_or_create` is not modelled.
- Permissions, sessions and the request object: only the POST body and the user id reach the model.
