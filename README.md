# ODK dashboard helpers, modelled in Dafny

This project models the small self-contained logic of the ODK/ONA survey dashboard (a Django site).

On the client side, `static/js/badili_dash.js` holds these helpers:

- the pre-order search for a jqxTree item by id (`jqxRecursion`);
- the collection of checked jqxTreeGrid rows into the shared `selected_node_ids` array, and the dispatch of an action button on that selection (`getSelectedItems`, `processButtonAction`);
- the fold of a serialized form into an object (`objectifyForm`);
- the two-panels-per-row chart layout (`generateChartsHTMLTemplate`);
- the stacked chart datasets (`createChartDatasets`);
- the comment alert (`formatErrorMessages`);
- the regular-expression escaping of a search string (`reEscape`);
- the validation → dry run → processing gate kept in `is_mapping_valid` and `is_dry_run_passed` (`validateMappings`, `executeProcessingDryRun`).

On the server side, `views.py` holds three guards:

- the CSRF get-or-create on `request.META`;
- the `cur_user` removal at logout;
- the `form_id == -1` rejection in `form_structure`.

Layout:

- `wrappers.dfy`: Option and Result.
- `tree_search.dfy`, `selection.dfy`, `form_serialize.dfy`, `chart_layout.dfy`, `chart_datasets.dfy`, `messages.dfy`, `regex_escape.dfy`, `gating.dfy`: one module per helper.
- `dash.dfy`: the dashboard object, a class. Its fields are the selection array and the two flags, which the source updates in place.
- `views.dfy`: the request object and the CSRF string source, as classes, and the three views.

Modelling choices:

- A JavaScript `undefined` is `None`, and a flag that was never assigned is `Unset`.
- The server's JSON members are booleans or absent.
- A child list that is `undefined` is walked like an empty one, so it is the empty sequence.
- HTML is built by concatenation from the source's own literal strings. `sprintf(template, key, view_id)` is a function parameter.

## Model

| member | source | states |
|---|---|---|
| TreeSearch.FirstWithId | static/js/badili_dash.js:946-960 | the returned node has the requested id, it is the first such node in the order searched, and None comes back exactly when no node has that id |
| TreeSearch.JqxRecursion | static/js/badili_dash.js:946-960 | the loop-and-recursion search returns the first node with the id in pre-order: a node before its `items`, its `items` before later siblings |
| Selection.CheckedNamesInPreOrder | static/js/badili_dash.js:316-325 | the traversal collects exactly the names of the checked rows of the whole forest, in pre-order, descending into `records` of unchecked rows too |
| Selection.NamesOfChecked | static/js/badili_dash.js:318-320 | a name is collected if and only if some checked row carries it |
| Selection.Dispatch | static/js/badili_dash.js:336-389 | an empty selection raises the error dialog, before any request, exactly for buttons other than `refresh_btn` and `dict_btn`; refresh posts to `/refresh_forms/`, dict downloads the dictionary; with a selection, `get_data_btn` opens the confirmation, `update_btn` posts to `/update_db_struct/` with "Updating DB structure...", `delete_btn` posts to `/delete_db/` and any other button posts to an undefined url, both with "Loading..." |
| Dash.BadiliDash.GetSelectedItems | static/js/badili_dash.js:316-325 | the shared array becomes its old contents followed by the checked names of the rows, in pre-order |
| Dash.BadiliDash.ProcessButtonAction | static/js/badili_dash.js:327-389 | the array is reset before the walk, so afterwards it holds exactly the checked names, and the outcome is the dispatch on that selection |
| FormSerialize.ObjectifyForm | static/js/badili_dash.js:1967-1974 | the loop's object is the in-order fold that writes each field's value under its name |
| FormSerialize.ObjectifiedKeys | static/js/badili_dash.js:1969-1972 | the object's keys are exactly the set of names in the array, so an empty array gives an empty object |
| FormSerialize.LastWriteWins | static/js/badili_dash.js:1970-1972 | each name maps to the value of its last occurrence in the array |
| ChartLayout.GenerateChartsHtmlTemplate | static/js/badili_dash.js:537-561 | the string built by the loop is the rendering of the layout: body pieces per entry, then a placeholder row when the count is odd |
| ChartLayout.BodyShape | static/js/badili_dash.js:541-554 | entry j is at pieces 2j and 2j+1, with a row opened before it when j is even and closed after it when j is odd; its view has id `prefix_key`, in key order |
| ChartLayout.PlaceholderIffOdd | static/js/badili_dash.js:557-559 | the placeholder row is appended if and only if the number of entries is odd |
| ChartLayout.RowsLeftOpen | static/js/badili_dash.js:545-559 | every opened row is closed except, for an odd count, the last one, since the placeholder is a complete row of its own and, despite the source comment, closes nothing |
| ChartDatasets.CreateChartDatasets | static/js/badili_dash.js:508-528 | the nested loops return the datasets of every group in order, or the exception of the first non-empty group without a palette |
| ChartDatasets.DatasetsAt | static/js/badili_dash.js:510-524 | on success there is one dataset per entry; entry j of group i is dataset number (entries before group i) + j, with its title, stack i+1 and colour index j, restarting at 0 in each group |
| ChartDatasets.DatasetsThrowIff | static/js/badili_dash.js:514-515 | the call throws exactly when some non-empty group has no palette, and names the first such group |
| ChartDatasets.ThrowPersists | static/js/badili_dash.js:510-524 | once the groups so far throw, later groups do not change the outcome |
| Messages.FormatErrorMessages | static/js/badili_dash.js:1097-1109 | the loop builds one danger paragraph per comment, in order, inside a dismissable alert, and the "mappings are valid" banner when there are no comments |
| Messages.BannerOnlyWithoutComments | static/js/badili_dash.js:1098-1106 | the banner appears if and only if the comment list is empty |
| RegexEscape.Escape | static/js/badili_dash.js:7 | escaping never shortens a string and leaves a string without the listed characters unchanged |
| RegexEscape.UnescapeEscape | static/js/badili_dash.js:7 | the escaped string has no listed character acting as an operator, and removing the inserted backslashes gives back the search string |
| RegexEscape.EscapeInjective | static/js/badili_dash.js:7 | different search strings give different escaped strings |
| RegexEscape.SearchPattern | static/js/badili_dash.js:502-505 | the highlighting pattern is one parenthesised group whose inside reads back as the search string |
| Gating.MappingVerdict | static/js/badili_dash.js:966-994 | a validation reply records a verdict exactly when it arrives with no truthy `error` and with `comments`, so such a reply without `is_mapping_valid == true` records `false`; it records `true` exactly when `is_mapping_valid == true` as well, and nothing after a communication error, an error reply or missing comments |
| Gating.RunVerdict | static/js/badili_dash.js:1053-1072 | a processing reply records `error == false` whenever it has `comments`, and nothing otherwise |
| Gating.Gate | static/js/badili_dash.js:1033-1045 | a request is sent exactly when `is_mapping_valid` is not `false` and, for a real run, `is_dry_run_passed` is not `false`; undefined flags do not block; a `false` mapping flag gives the mapping refusal, otherwise a real run after a failed dry run gives the dry-run refusal |
| Gating.FlagsHoldLastVerdicts | static/js/badili_dash.js:994-1072 | after any sequence of replies each flag holds the verdict of the last reply of its kind that recorded one, and stays undefined until then |
| Gating.GateAfter | static/js/badili_dash.js:1033-1072 | after any sequence of replies a dry run is sent unless the last validation verdict was invalid; a real run also needs the last processing verdict not to be a failure |
| Dash.BadiliDash.ExecuteProcessingDryRun | static/js/badili_dash.js:1033-1045 | the method's refusal or request is the gate applied to the object's current flags; no flag changes |
| Dash.BadiliDash.OnValidationReply | static/js/badili_dash.js:966-995 | `is_mapping_valid` becomes the reply's verdict when it records one and is otherwise unchanged |
| Dash.BadiliDash.OnProcessingReply | static/js/badili_dash.js:1048-1072 | `is_dry_run_passed` becomes `error == false` for a reply with comments; the comments panel gets the formatted alert, or is emptied when there are no comments |
| Dash.BadiliDash.constructor | static/js/badili_dash.js:1-11 | a fresh dashboard has both flags undefined |
| Views.CsrfOutcome | views.py:290-300 | a stored token that is not None is returned unchanged; otherwise the new string is stored under `CSRF_COOKIE` and returned; `CSRF_COOKIE_USED` is True and no other key changes |
| Views.CsrfIdempotent | views.py:290-300 | a second call on the same request returns the same token and leaves `META` as the first call left it |
| Views.GetOrCreateCsrfToken | views.py:290-300 | the method writes `META` as the outcome says, and draws a new string only when no token is stored |
| Views.CsrfTwice | views.py:290-300 | two calls return the same token and draw at most one new string, and none when a token was already stored |
| Views.UserLogout | views.py:76-84 | afterwards `cur_user` is not a key of the session, no key other than `cur_user` changes compared with the session `logout` leaves, and the browser is sent to `/` |
| Views.FormStructure | views.py:178-200 | the first-login or unsaved-settings guard gives the settings page; a missing `form_id` or an `int()` failure gives its error text; `-1` gives the "Please select a form" error and the parser is never asked; any other id is asked of the parser exactly once, and its structure, or its error text, is returned |

## Left out

- DOM, jQuery, jqWidgets, FooTable, dynatable, SweetAlert, modals and every `$.ajax`/`XMLHttpRequest` call are user interface and network I/O. Replies of the server come in as parameters.
- Highcharts, Leaflet, heat maps, the rgba palettes and the default `backgroundColor2` scheme are rendering configuration. The colour scheme is a parameter.
- `sprintf`, the `RegExp` replacement in `fnFormatResult` and `toProperCase` are foreign formatting, regex and Unicode case mapping. The chart template is a function parameter.
- The comment HTML that `validateMappings` builds and the enabling of the dry-run and process buttons are DOM updates.
- `processButtonAction` after the dispatch (the POST, its reply and `downloadData`) is network I/O.
- The single-row checkbox toggling relies on `$globalCheckbox`, which the file never defines.
- The `angular_jqxswitchbutton.ts` wrapper, `urls.py`, `utilities.py`, `login_page` and the views that delegate to `OdkParser` are framework glue, I/O or code not shown.
- Django's `logout(request)`, which runs before the `cur_user` removal, is framework code. It flushes the session, removing every key, before the `del`. The model's session is the one `logout` leaves, so `Views.UserLogout` states what the view itself changes, and its claim about `cur_user` holds whatever `logout` did.
- `csrf._get_new_csrf_string()` is randomness. It is an unbounded stream of strings given to the model.
- Logging is output only and is dropped: the `console.log` calls in the client and the `print`, `terminal.tprint` and `logging` calls in the views change no state the model tracks.
- Python's `int()` is a function parameter that returns a number or the exception text.
- Dash.BadiliDash.constructor: `selected_node_ids` is undefined until the first button press. The model starts it empty, and every press resets it before use.
- TreeSearch.JqxRecursion: ids are integers, so JavaScript's loose `==` between a string and a number id is not modelled.
- ChartLayout.GenerateChartsHtmlTemplate: requires at least one entry, because with none the source returns the string an earlier call left in the undeclared global `merged_views`, or throws a ReferenceError when no call has assigned it yet. Keys are taken in iteration order as given, without JavaScript's own key ordering.
- ChartDatasets.CreateChartDatasets: groups and entries are taken in the order given. JavaScript's `$.each` over an object visits integer-like keys first, in ascending order, and the colour index follows that order; that key ordering is not modelled.
- FormSerialize.ObjectifyForm: names are plain map keys. Special object keys such as `__proto__` are not modelled.
- Views.FormStructure: the text of the framework's `KeyError` for a missing `form_id` and of `int()`'s `ValueError` are parameters, since both come from Django and Python rather than from the view.
