# cogen course tree, routes and callout commands in Dafny

This project models the core of cogen, a course-delivery web application. Its
parts are:

- **The course tree.** A course is a tree of pages. Each page has an `id`, a
  `name`, a `data` body (a Handlebars template) and, optionally, a `children`
  array.
- **The course service** (`api/course_service.js`):
  - `fetchData` finds the body of the page with a given id;
  - `accumMenu` and `generateMenuString` render the tree as the sidebar's
    nested `<li>`/`<ul>` markup;
  - `getUsers` and `getUserVars` list the students and select one student's
    row from the parsed student-variables table.
- **The server** (`server.js`):
  - the course-section route: the 404 fall-through, the `__start` page and
    the rendered view;
  - the course-title URL slug;
  - the file name of an uploaded variables table;
  - the training login, which stores a student's row in the session;
  - the sidebar switch.
- **The editor plugins.** Three commands, `replaceWithNote`,
  `replaceWithImportant` and `replaceWithWarning`, toggle callout classes on
  the element under the selection, or insert a new callout `div`.

Modules, one per file:

- `Wrappers` (`wrappers.dfy`): `Option`.
- `CourseTree` (`course_tree.dfy`): pages, and the flattening of a tree into
  document order.
- `FetchData` (`fetch_data.dfy`): `fetchData`. It is a recursive function
  `Fetch`/`Scan` with the JavaScript's short-circuit rule, plus the method
  `FetchDataOf`, which runs the same search with a loop.
- `Text` (`text.dfy`): counting occurrences of a tag in markup.
- `Menu` (`menu.dfy`): the sidebar markup.
  - The methods `AccumMenu` and `GenerateMenuString` build strings with `+=`
    as the service does.
  - They are proved equal to the functions `ItemMarkup` and `MenuMarkup`.
  - The functions are proved to hold one `<li` and one `</li` per page.
- `StudentRows` (`student_rows.dfy`): `getUsers` (a pluck) and `getUserVars`
  (the first matching row) over parsed rows.
- `UrlNames` (`url_names.dfy`): the slug and the variables-file path.
- `Callouts` (`callouts.dfy`): the three commands.
  - The function `Apply` is the decision the commands make.
  - The class `Editor` holds an element's class set and the inserted
    elements, and updates them in place.
- `Server` (`server.dfy`): the `__start` template, the section route as a
  method of the `Session` class, the training login and the sidebar switch.

Handlebars is passed to the section route as the parameter
`expand: (string, Row) -> string`. It stands for compiling a template and
applying it to the user's variables. Reading files and parsing CSV are not
modelled: the course tree and the student rows are inputs.

## Model

| member | source | states |
|---|---|---|
| CourseTree.FlattenNode | api/course_service.js:112-175 | helper definition, the pages of one subtree in the pre-order `accumMenu` visits them; its contract: the page itself comes first |
| CourseTree.Flatten | api/course_service.js:183-192 | helper definition, the pages of a forest in the order `generateMenuString` visits them; its contract: at least one entry per top-level page |
| CourseTree.FlattenHas | api/course_service.js:89-100 | every top-level page, and every page under one with `children`, is a page of the tree |
| CourseTree.FlattenSplit | api/course_service.js:89-100 | every page of the tree is a top-level page or lies inside the `children` of one |
| FetchData.Fetch | api/course_service.js:69-103 | definition: `fetchData`, the first sibling's `data` when a sibling has the id, else the `some` pass over the siblings; characterised by the `Fetch…` lemmas below |
| FetchData.Scan | api/course_service.js:89-100 | definition: the `some` pass, which recurses into each element with `children`, overwrites `fetchedData` with its answer and stops at the first truthy one |
| FetchData.FindWhereId | api/course_service.js:71-73 | `findWhere` by id: the index of the first sibling with that id, or none when no sibling has it |
| FetchData.FetchDataOf | api/course_service.js:69-103 | the loop with its early return computes exactly the recursive definition `Fetch` |
| FetchData.SiblingMatchWins | api/course_service.js:71-82 | when a sibling has the id, the first such sibling's `data` is returned, even `''`, and nothing below is searched |
| FetchData.LastWithChildren | api/course_service.js:93 | the index of the last element that has a `children` field, or none when no element has one |
| FetchData.ScanStopsAtFirstTruthy | api/course_service.js:89-100 | the `some` pass returns the answer of the first subtree whose answer is truthy |
| FetchData.FirstTruthySubtreeWins | api/course_service.js:89-100 | with no sibling match, the result is the first truthy subtree answer, left to right |
| FetchData.ScanFallsThrough | api/course_service.js:93-102 | with no truthy subtree, the pass ends with the answer of the last element that has `children` |
| FetchData.NoTruthySubtreeLastOneDecides | api/course_service.js:93-102 | with no sibling match and no truthy subtree, the result is the last children-bearing element's answer, or undefined when there is none |
| FetchData.EmptyMatchOverwritten | api/course_service.js:93-102 | a nested page with an empty body is found, then a later sibling's undefined answer overwrites it |
| FetchData.FetchSound | api/course_service.js:69-103 | any defined result is the `data` of a page of the tree with the requested id |
| FetchData.ScanSound | api/course_service.js:89-100 | the `some` pass only produces bodies of pages with the requested id |
| FetchData.FetchMissing | api/course_service.js:69-103 | an id that labels no page of the tree yields undefined |
| FetchData.ScanReachesTruthy | api/course_service.js:89-100 | once some later subtree's answer is truthy, the pass ends with a truthy answer |
| FetchData.FetchFinds | api/course_service.js:69-103 | when the id is in the tree and every page with it has a non-empty body, the result is truthy and is such a page's body |
| Menu.DrawerHead | api/course_service.js:122-139 | definition: a drawer's opening `<li>` and its toggle, a link to the page when its `data` is non-empty, else a `data-empty` toggle |
| Menu.ItemMarkup | api/course_service.js:112-175 | definition: `accumMenu`'s result, a leaf item, or a drawer head, the children's menu inside `<ul>`…`</ul>`, and `</li>` |
| Menu.MenuMarkup | api/course_service.js:183-192 | definition: `generateMenuString`'s result, the items of the pages in order |
| Menu.MenuConcat | api/course_service.js:183-192 | the menu of `xs ++ ys` is the menu of `xs` followed by the menu of `ys` |
| Menu.AccumMenu | api/course_service.js:112-175 | the `+=` string building, with the loop over the children, yields exactly `ItemMarkup`: a leaf link, or a drawer with a linked or `data-empty` toggle, then `<ul>`, the children in order, `</ul></li>` |
| Menu.AccumChildren | api/course_service.js:145-153 | the loop over a drawer's children yields `<ul>`, each child's markup in order, then `</ul>` |
| Menu.GenerateMenuString | api/course_service.js:183-192 | the `forEach` concatenation yields exactly `MenuMarkup`, the items in input order (`''` for no pages) |
| Menu.LinkHeadShape | api/course_service.js:164-168 | a leaf's opening and link (or a linked drawer's) holds one `<li` and no `</li` |
| Menu.ToggleHeadShape | api/course_service.js:133-137 | an empty drawer's opening and toggle hold one `<li` and no `</li` |
| Menu.CloseShape | api/course_service.js:160 | `</li>` adds one `</li` and no `<li` |
| Menu.WrapShape | api/course_service.js:145-153 | wrapping in `<ul>`…`</ul>` adds neither |
| Menu.LeafOpenShape | api/course_service.js:165 | the leaf's opening literal is a `<li` tag |
| Menu.DrawerOpenShape | api/course_service.js:124 | the drawer's opening literal is a `<li` tag |
| Menu.ItemEndShape | api/course_service.js:169 | the closing literal is a `</li` tag |
| Menu.LinkOpenShape | api/course_service.js:166 | the link literal is neither tag |
| Menu.ToggleAnchorShape | api/course_service.js:135 | the toggle literal is neither tag |
| Menu.AnchorEndShape | api/course_service.js:168 | `</a>` is neither tag |
| Menu.ListShapes | api/course_service.js:145-153 | `<ul>` and `</ul>` are neither tag |
| Menu.TextLiterals | api/course_service.js:124-166 | the attribute-closing literals contain no `<` |
| Menu.LeafBalanced | api/course_service.js:163-170 | a page without `children` renders one `<li` and one `</li` |
| Menu.DrawerHeadBalanced | api/course_service.js:122-139 | a drawer's head, linked or empty, opens one `<li` and closes none |
| Menu.DrawerBalanced | api/course_service.js:116-161 | a drawer opens and closes one item more than its children's menu |
| Menu.ItemBalanced | api/course_service.js:112-175 | one page's markup holds as many `<li` and `</li` as the page has pages in its subtree |
| Menu.MenuBalanced | api/course_service.js:183-192 | with `<`-free ids, names and course id, the menu holds exactly one `<li` and one `</li` per page of the tree |
| StudentRows.NumberOf | api/course_service.js:60 | a row's `Number` cell, absent when the column is missing |
| StudentRows.GetUsers | api/course_service.js:51-61 | `pluck('Number')`: same length and order as the rows, the i-th entry is row i's `Number` |
| StudentRows.FirstMatch | api/course_service.js:44 | the index of the first row whose `Number` is the id, or none when no row has it |
| StudentRows.GetUserVars | api/course_service.js:36-45 | undefined exactly when no row's `Number` is the id; otherwise a row of the table with that `Number` |
| StudentRows.UserVarsAgreeWithUsers | api/course_service.js:36-61 | a student has variables exactly when their number appears in `getUsers` |
| UrlNames.IsSpace | server.js:174 | definition: the characters JavaScript's `\s` class matches |
| UrlNames.LowerChar | server.js:174 | lower-casing leaves whitespace, underscores and non-letters alone and leaves no upper-case ASCII letter |
| UrlNames.Lower | server.js:174 | `toLowerCase` keeps the length and lower-cases each character |
| UrlNames.SkipSpaces | server.js:174 | drops exactly the whitespace run the string starts with |
| UrlNames.Dashify | server.js:174 | the replacement never lengthens the text |
| UrlNames.DashifyDashed | server.js:174 | the replacement leaves no whitespace and no `_` |
| UrlNames.DashifyNoUpper | server.js:174 | the replacement brings in no upper-case letter |
| UrlNames.Slug | server.js:92 | the slug is no longer than the title and has no whitespace, `_` or upper-case ASCII letter |
| UrlNames.DashifyFixes | server.js:174 | a string without whitespace or `_` is left unchanged |
| UrlNames.LowerFixes | server.js:174 | a string without upper case is left unchanged by lower-casing |
| UrlNames.SlugIdempotent | server.js:201 | slugging a slug changes nothing |
| UrlNames.DashifyConcat | server.js:174 | the replacement works piece by piece when the left part is empty or does not end in whitespace |
| UrlNames.DashifyRun | server.js:174 | a whitespace run of any length becomes a single `-` |
| UrlNames.Underscored | server.js:261 | `replace(/-/g, '_')`: same length, every `-` becomes `_`, all else unchanged |
| UrlNames.VariablesPath | server.js:261 | the path is `data/`, the title with `-` made `_`, then `_variables.csv` |
| UrlNames.VariablesPathCollides | server.js:261 | two titles share a variables file exactly when they agree up to `-` versus `_` |
| Callouts.CommandsWellFormed | public/js/ckeditor/plugins/cogen_addnote/plugin.js:12-22 | each command looks at the three callout classes, each once |
| Callouts.Apply | public/js/ckeditor/plugins/cogen_addnote/plugin.js:11-27 | nothing selected: no change; own class present: removed; else the first present of the other two is swapped for it; else a `div` of the class with the selected text is inserted and the classes are left alone |
| Callouts.CalloutOf | public/js/ckeditor/plugins/cogen_addnote/plugin.js:12-22 | the callout class an element carries, none exactly when it carries no callout class |
| Callouts.ApplyKeepsAtMostOne | public/js/ckeditor/plugins/cogen_addwarning/plugin.js:12-22 | an element with at most one callout class still has at most one afterwards |
| Callouts.ApplyOnOneCallout | public/js/ckeditor/plugins/cogen_addimportant/plugin.js:11-27 | on such an element: own class to none, another callout to the command's, none to none plus an inserted callout |
| Callouts.ApplyKeepsOtherClasses | public/js/ckeditor/plugins/cogen_addnote/plugin.js:12-22 | classes other than the three callout classes are never touched |
| Callouts.WarningChecksImportantFirst | public/js/ckeditor/plugins/cogen_addwarning/plugin.js:15-21 | with two callout classes present, `replaceWithWarning` swaps `important-note`, while `replaceWithImportant` swaps `note` |
| Callouts.Editor.constructor | public/js/ckeditor/plugins/cogen_addnote/plugin.js:6-9 | an editor starts with the element's classes and nothing inserted |
| Callouts.Editor.Exec | public/js/ckeditor/plugins/cogen_addnote/plugin.js:11-27 | the in-place class updates and insertion give exactly `Apply`'s outcome, and keep at most one callout class |
| Callouts.Editor.ReplaceWithNote | public/js/ckeditor/plugins/cogen_addnote/plugin.js:11-27 | `replaceWithNote`: order note, important-note, warning-note |
| Callouts.Editor.ReplaceWithImportant | public/js/ckeditor/plugins/cogen_addimportant/plugin.js:11-27 | `replaceWithImportant`: order important-note, note, warning-note |
| Callouts.Editor.ReplaceWithWarning | public/js/ckeditor/plugins/cogen_addwarning/plugin.js:11-27 | `replaceWithWarning`: order warning-note, important-note, note |
| Server.StartTemplate | server.js:130-141 | a TypeError unless there is a first section and it has a body or a first child; the first section's body, or its first child's body when the section's is `''` |
| Server.StartMatchesSection | server.js:111-141 | a first section with a body shows the same template at `__start` as when requested by its id |
| Server.EmptyFirstSectionOnlyAtStart | server.js:111-135 | a first section with an empty body is found by id but not truthy, so only `__start` reaches its child |
| Server.StartFallbackOneLevel | server.js:134-135 | the fallback goes one level deep: an empty drawer in an empty drawer gives an empty start page |
| Server.StudentName | server.js:308 | definition: `'student' + userData.Number`, with `undefined` spelled out when the column is missing |
| Server.LoginRecord | server.js:308 | the record gains `Student = 'student' + Number`, and every other cell is unchanged |
| Server.LoginLookupAsWritten | server.js:305 | the lookup as written is undefined exactly when no row's `Number` is the course title, and otherwise returns a row of the table whose `Number` is the course title |
| Server.LoginLookupIgnoresId | server.js:305 | the lookup as written does not depend on the chosen student |
| Server.LoginAsWrittenMissesStudent | server.js:305-308 | a listed student `07` cannot log in to course `cogen`: the lookup is undefined and the fix-up throws |
| Server.LoginLookup | server.js:305 | the lookup by student id is defined exactly when the id is listed, and returns a row with that `Number` |
| Server.LoginRecordNamesStudent | server.js:305-311 | after the lookup by id, the stored record's `Student` is `'student' + id`, and its other cells are unchanged |
| Server.Session.constructor | server.js:105 | a fresh session has no user |
| Server.Session.CourseSection | server.js:99-185 | no user: 404; a section that is not `__start`: rendered exactly when its lookup is truthy, with the content expanded from it; `__start`: the start template expanded, or a TypeError; the view carries the menu, the user, the sidebar flag and the slugged title |
| Server.Session.TrainingLogin | server.js:303-320 | succeeds exactly when the student is listed; then the session holds the fixed-up record and the sidebar is on; otherwise the session is unchanged |
| Server.Session.SetSidebar | server.js:323-324 | the flag is on exactly when the parameter is the string `true`; the user is unchanged |

## Left out

- Reading `data/course_data.json` and `data/studentvars.csv`, CSV parsing, and `getCourse` (which ignores its argument): the tree and the rows are inputs.
- Express routing, sessions as cookies, uploads, file streams, `unlinkSync`, the PDF route and the error handler: I/O plumbing.
- Handlebars: compiling and applying a template is the uninterpreted parameter `expand`. Its escaping and missing-key behaviour are not modelled.
- UrlNames.Lower: models `toLowerCase` for the ASCII letters only. Full Unicode case mapping is not modelled: `Ä` stays upper-case here, and `İ`, which JavaScript lower-cases to two code units, keeps one.
- UrlNames.LowerChar: the same ASCII-only lower-casing, one character at a time.
- UrlNames.Slug: inherits the ASCII-only lower-casing. Its bound `|r| <= |title|` holds for the model; in JavaScript a title with `İ` can give a longer slug.
- The menu markup is a string. Its balance is proved for `<`-free ids, names and course ids (`Menu.MenuBalanced`). An id or name containing `<li` would add tags, and that case is not covered.
- Callouts.Editor: the element's class list is a set. The order of classes in the `class` attribute, and where CKEditor places the inserted `div`, are not modelled. The inserted elements are kept as a sequence.
- Server.Session.CourseSection: `sidebarShown` is `false` before any login or sidebar request. In the source it is `undefined`, which is falsy.
- Server.Session.TrainingLogin: looks the student up by id (the corrected behaviour; see Findings). The JSON response is reduced to a success flag, and a failed lookup stands for the thrown `TypeError`.
- The splash route (server.js:77-96) lists the students with `getUsers` (`StudentRows.GetUsers`) and shows the slug (`UrlNames.Slug`); the edit route (server.js:188-206) shows the slug. The rest of those routes is rendering plumbing.
- `getVariableNames`, `saveCourse` and `generatePdfString`, which the server calls, are not part of this model.

## Findings

| source | as written | input that shows it | evidently intended | confidence | as-written member | corrected member |
|---|---|---|---|---|---|---|
| server.js:305 | `getUserVars(req.params.title, req.params.id)` passes the course title as the one parameter `studentId`, so the student row is selected by the course title and the chosen id is ignored | rows `[{Number: "07"}]`, title `cogen`, id `07`: the lookup is undefined, and `userData.Student = …` throws | select the row whose `Number` is the chosen student id | high; not executed | Server.LoginAsWrittenMissesStudent | Server.LoginRecordNamesStudent |
