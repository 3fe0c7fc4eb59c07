# Store management back end and cashier front end: a Dafny model

This project models the core of a small store-management application. Its
back end is an Express server over a MongoDB document store, and its front
end is a React client. The model covers five pieces:

- **Products** (`addProduct`, `updateProduct`). A product is created only
  after six checks pass, in a fixed order: request schema, category exists,
  supplier exists, name not taken, quantity not negative, price not
  negative. Its `categoryID`/`supplierID` fields are then renamed to
  `category`/`supplier`, the product is saved, and its id is appended to the
  category's and the supplier's `products` lists. An update is refused to
  callers without the importer role, checks the quantity and price bounds,
  looks the product up, and copies every submitted field onto it.
- **Work schedules** (`addWorkSchedule`, `getWorkSchedules`). There is one
  schedule per (month, year), with the month in 1..12 and the year at least
  2020. The listing returns every schedule with the shifts that name it, and
  each shift with the assignments that name it, minus their back-reference.
- **Work shifts** (`addWorkShift`). A shift is created only inside an
  existing schedule. Its start must come before its end, both must fall in
  the schedule's month and year in local time, and no identical shift may
  exist. Its id is then appended to the schedule's `workShifts` list.
- **The cashier's checkout panel.** This is a three-field state machine:
  collapsed, selected menu item, operation in progress. While an operation
  is in progress, leaving the current item asks for confirmation first.
- **The toolbar's avatar menu.** An entry's menu key is `key + "***" + path`.
  A click splits it on `"***"` and then either logs out (removing the token
  and user cookies, then going to `/login`) or navigates to the path.

The store is one class, `Store.Db`. It holds the collections as maps and
sequences in insertion order, plus an id counter. Each controller is a method
that takes the store, runs its checks, and writes only once every check has
passed. Each controller's checks are also listed in source order, as a
sequence of (passes, error code) pairs. `Common.FirstFailure` picks the
answer from that list, and lemmas use it to state which error wins.
Schema validation is a parameter `validates`. The permission lookup is a
boolean parameter `isImporter`. The server's time zone is a fixed offset
`tzOffsetMs`. The local calendar date of a time value is computed outright in
`Calendar.LocalDateOf`.

## Model

| member | source | states |
|---|---|---|
| Common.FirstFailure | final-project/back-end/modules/product/product.controller.js:21-68 | no error exactly when every check passes; otherwise the error of the first failing check |
| Common.FirstFailureAt | final-project/back-end/modules/product/product.controller.js:21-68 | when check `i` fails and all earlier ones pass, the answer is check `i`'s error |
| Calendar.MonthsFillYear | final-project/back-end/modules/work-shift/work-shift.controller.js:33-36 | the twelve month lengths add up to the length of the year (leap years included) |
| Calendar.YearOfDay | final-project/back-end/modules/work-shift/work-shift.controller.js:35-36 | the year holding a day count, and the day's offset inside that year, which is within the year's length |
| Calendar.MonthOfDay | final-project/back-end/modules/work-shift/work-shift.controller.js:35-36 | the month holding a day of the year, and its day of month, which is between 1 and the month's length |
| Calendar.LocalDateOf | final-project/back-end/modules/work-shift/work-shift.controller.js:33-36 | `getFullYear`, `getMonth() + 1` and `getDate()` of a time value: a month in 1..12, a day in 1..month length, naming exactly the local day of the time |
| Store.ShiftsOf | final-project/back-end/modules/work-schedule/work-schedule.controller.js:74 | the shifts naming a schedule: exactly the stored shifts whose `workSchedule` is that id |
| Store.AssignmentsOf | final-project/back-end/modules/work-schedule/work-schedule.controller.js:80-81 | the assignments naming a shift: exactly the stored assignments whose `workShift` is that id |
| Store.FindSchedule | final-project/back-end/modules/work-shift/work-shift.controller.js:22 | finds the position of the schedule with that id, or reports that no schedule has it |
| Store.ShiftsOfAppend | final-project/back-end/modules/work-shift/work-shift.controller.js:59-64 | saving a new shift extends the shift list of its own schedule only, at the end |
| Store.ShiftIdsAppend | final-project/back-end/modules/work-shift/work-shift.controller.js:66 | appending a shift appends its id |
| ProductController.IsNegative | final-project/back-end/modules/product/product.controller.js:54 | the guard `v && v < 0` fires exactly for a present negative number; an absent field or 0 passes |
| ProductController.RefersTo | final-project/back-end/modules/product/product.controller.js:27-37 | the body field holds the id of a stored category (or supplier); otherwise the lookup finds nothing |
| ProductController.NameTaken | final-project/back-end/modules/product/product.controller.js:45 | some stored product has the same name as the body |
| ProductController.AddProductChecks | final-project/back-end/modules/product/product.controller.js:21-68 | the six guards of `addProduct` in source order, each with its error: schema, CATEGORY_NOT_FOUND, SUPPLIER_NOT_FOUND, DUPLICATED_PRODUCT, INVALID_PRODUCT_AVAILABLE_QUANTITY, INVALID_PRODUCT_PRICE |
| ProductController.UpdateProductChecks | final-project/back-end/modules/product/product.controller.js:99-139 | the five guards of `updateProduct` in source order, each with its error: schema, PERMISSION_DENIED, INVALID_PRODUCT_AVAILABLE_QUANTITY, INVALID_PRODUCT_PRICE, PRODUCT_NOT_FOUND |
| ProductController.AddProductStatus | final-project/back-end/modules/product/product.controller.js:21-68 | a refused creation is a 404 exactly when the body is valid and the category or supplier is not found, otherwise a 400 |
| ProductController.UpdateProductStatus | final-project/back-end/modules/product/product.controller.js:99-139 | a refused update is a 401 exactly when the body is valid and the caller is not an importer, a 404 exactly when every earlier check passes and the product is missing, otherwise a 400 |
| ProductController.Renamed | final-project/back-end/modules/product/product.controller.js:70-73 | the stored product has `category` = `categoryID` and `supplier` = `supplierID`, loses both `…ID` keys, and keeps every other field |
| ProductController.AddKeepsNamesUnique | final-project/back-end/modules/product/product.controller.js:45-52 | adding a product whose name is not taken keeps product names unique |
| ProductController.AddKeepsListsLinked | final-project/back-end/modules/product/product.controller.js:78-82 | appending the new id to one category and one supplier keeps every listed id a stored product |
| ProductController.SaveProduct | final-project/back-end/modules/product/product.controller.js:70-82 | saves the renamed body under a fresh id and appends that id to the end of the category's and the supplier's lists; nothing else changes; unique names and linked lists are preserved |
| ProductController.AddProduct | final-project/back-end/modules/product/product.controller.js:18-94 | on failure, the first failing check's error and an unchanged store; on success, the effect of `SaveProduct`; unique names and linked lists are preserved; the answer is a 404 exactly when the body is valid and the category or supplier is not found |
| ProductController.MergeFields | final-project/back-end/modules/product/product.controller.js:141-142 | the merged product has the union of the keys; submitted keys take the submitted values; every other field is kept |
| ProductController.UpdateProduct | final-project/back-end/modules/product/product.controller.js:96-155 | on failure, the first failing check's error and an unchanged store; on success, the product becomes the stored one overwritten by the body (an empty body changes nothing); nothing else changes; the answer is a 401 exactly when the body is valid and the caller is not an importer, and a 404 exactly when every earlier check passes and the product is missing |
| ProductController.UpdateCanDuplicateName | final-project/back-end/modules/product/product.controller.js:141-143 | an update that renames one product to another's name passes every check and leaves two products with that name |
| ProductController.UpdatePriceCheckedBeforeLookup | final-project/back-end/modules/product/product.controller.js:115-139 | a negative price yields INVALID_PRODUCT_PRICE whether or not the product exists |
| ProductController.UpdatePermissionFirst | final-project/back-end/modules/product/product.controller.js:104-112 | a caller without the importer role gets PERMISSION_DENIED before any bounds check or lookup |
| ProductController.AddProductSucceedsIff | final-project/back-end/modules/product/product.controller.js:21-68 | creation passes every check exactly when the schema holds, both references resolve, the name is free and neither quantity nor price is negative |
| ProductController.AddProductDuplicateWins | final-project/back-end/modules/product/product.controller.js:45-68 | once schema, category and supplier pass, a taken name wins over a bad quantity or price |
| WorkScheduleController.ScheduleExists | final-project/back-end/modules/work-schedule/work-schedule.controller.js:39-42 | some stored schedule has the same month and year |
| WorkScheduleController.AddWorkScheduleChecks | final-project/back-end/modules/work-schedule/work-schedule.controller.js:15-49 | the four guards of `addWorkSchedule` in source order, each with its error: schema, INVALID_WORK_MONTH, INVALID_WORK_YEAR, DUPLICATED_WORK_SCHEDULE |
| WorkScheduleController.AddWorkScheduleStatus | final-project/back-end/modules/work-schedule/work-schedule.controller.js:15-49 | every refused schedule creation is a 400 |
| WorkScheduleController.AppendKeepsMonthYearUnique | final-project/back-end/modules/work-schedule/work-schedule.controller.js:39-52 | adding a schedule for a new (month, year) keeps pairs unique |
| WorkScheduleController.NoShiftsOfFreshId | final-project/back-end/modules/work-schedule/work-schedule.controller.js:51-52 | a schedule id that no shift names has no shifts |
| WorkScheduleController.AddWorkSchedule | final-project/back-end/modules/work-schedule/work-schedule.controller.js:12-64 | on failure, the first failing check's error and an unchanged store; on success, exactly one schedule appended with a fresh id and an empty shift list; unique (month, year) pairs and the shift lists are preserved; the answer is always 200 or 400 |
| WorkScheduleController.AddWorkScheduleSucceedsIff | final-project/back-end/modules/work-schedule/work-schedule.controller.js:21-52 | creation passes every check exactly when the month is in 1..12, the year is at least 2020 and the pair is new |
| WorkScheduleController.MonthCheckedBeforeYear | final-project/back-end/modules/work-schedule/work-schedule.controller.js:21-37 | a month outside 1..12 yields INVALID_WORK_MONTH whatever the year |
| WorkScheduleController.YearCheckedBeforeDuplicate | final-project/back-end/modules/work-schedule/work-schedule.controller.js:30-49 | a good month with a year below 2020 yields INVALID_WORK_YEAR, duplicate or not |
| WorkScheduleController.StripWorkShift | final-project/back-end/modules/work-schedule/work-schedule.controller.js:83-85 | every assignment is kept, in order, with its id and assigner and without its `workShift` field |
| WorkScheduleController.ShiftTree | final-project/back-end/modules/work-schedule/work-schedule.controller.js:78-88 | a shift with its own fields, its `workAssignments` replaced by the stripped assignments that name it |
| WorkScheduleController.ScheduleTree | final-project/back-end/modules/work-schedule/work-schedule.controller.js:71-93 | a schedule with its own fields, its `workShifts` replaced by the trees of the shifts that name it |
| WorkScheduleController.ScheduleForest | final-project/back-end/modules/work-schedule/work-schedule.controller.js:69-95 | one tree per stored schedule, in store order |
| WorkScheduleController.GetWorkSchedules | final-project/back-end/modules/work-schedule/work-schedule.controller.js:66-107 | the answer is one tree per stored schedule: its shifts, each with its stripped assignments |
| WorkScheduleController.ForestKeepsScheduleOrder | final-project/back-end/modules/work-schedule/work-schedule.controller.js:69-95 | one entry per stored schedule, in store order, with the schedule's id, month and year |
| WorkScheduleController.ForestShiftsAreExact | final-project/back-end/modules/work-schedule/work-schedule.controller.js:74-92 | a returned schedule's shifts are exactly the stored shifts naming it, as many, in store order and field for field; a returned shift's assignments are exactly the stored assignments naming it, as many, in store order, each with its id and assigner, and every stored assignment naming the shift is among them |
| WorkScheduleController.ForestFollowsStoredLists | final-project/back-end/modules/work-schedule/work-schedule.controller.js:69-92 | when the stored `workShifts` lists agree with the shifts, each returned schedule has as many shifts as its stored list, and their ids follow that list in order |
| WorkShiftController.ParentOf | final-project/back-end/modules/work-shift/work-shift.controller.js:22-29 | the parent schedule is found exactly when some stored schedule has the submitted id |
| WorkShiftController.ValidTimeRange | final-project/back-end/modules/work-shift/work-shift.controller.js:33-36 | the start's day of month is at least 1, start < end, and both fall in the schedule's month and year; every comparison with an Invalid Date fails |
| WorkShiftController.ShiftExists | final-project/back-end/modules/work-shift/work-shift.controller.js:46-50 | some stored shift has the same schedule, start and end |
| WorkShiftController.AddWorkShiftChecks | final-project/back-end/modules/work-shift/work-shift.controller.js:16-57 | the four guards of `addWorkShift` in source order, each with its error: schema, WORK_SCHEDULE_NOT_FOUND, INVALID_WORK_SHIFT_TIME_RANGE, DUPLICATED_WORK_SHIFT |
| WorkShiftController.AppendKeepsTriplesUnique | final-project/back-end/modules/work-shift/work-shift.controller.js:46-64 | adding a shift with a new (schedule, start, end) keeps triples unique |
| WorkShiftController.AppendKeepsListsAgree | final-project/back-end/modules/work-shift/work-shift.controller.js:59-67 | saving a shift and appending its id to its schedule keeps every schedule's list equal to the shifts naming it |
| WorkShiftController.AppendShiftKeepsIds | final-project/back-end/modules/work-shift/work-shift.controller.js:59-67 | a shift saved under a fresh id keeps ids distinct and below the counter |
| WorkShiftController.SaveWorkShift | final-project/back-end/modules/work-shift/work-shift.controller.js:59-67 | the new shift holds exactly its schedule, start and end; it is appended to the shifts, and its id to the end of its schedule's list; nothing else changes |
| WorkShiftController.AddWorkShift | final-project/back-end/modules/work-shift/work-shift.controller.js:13-79 | on failure, the first failing check's error and an unchanged store; on success, the effect of `SaveWorkShift` on the schedule with the submitted id; unique triples and agreeing lists are preserved; the answer is a 404 exactly when the body is valid and the schedule is not found |
| WorkShiftController.DayConjunctIsRedundant | final-project/back-end/modules/work-shift/work-shift.controller.js:33-36 | the time range is valid exactly when start < end and both fall in the schedule's month and year; the `getDate() >= 1` conjunct decides nothing |
| WorkShiftController.ParentCheckedFirst | final-project/back-end/modules/work-shift/work-shift.controller.js:22-29 | an unknown schedule yields WORK_SCHEDULE_NOT_FOUND before any time check |
| WorkShiftController.AddWorkShiftSucceedsIff | final-project/back-end/modules/work-shift/work-shift.controller.js:22-57 | creation passes every check exactly when the schedule exists, start < end, both lie in its month and year, and no identical shift exists |
| WorkShiftController.StartOutsideMonthRefused | final-project/back-end/modules/work-shift/work-shift.controller.js:31-44 | a start in another month than the schedule's yields INVALID_WORK_SHIFT_TIME_RANGE |
| WorkShiftController.DuplicateShiftRefused | final-project/back-end/modules/work-shift/work-shift.controller.js:46-57 | an identical shift yields DUPLICATED_WORK_SHIFT once the range has passed |
| WorkShiftController.AddWorkShiftStatus | final-project/back-end/modules/work-shift/work-shift.controller.js:16-57 | a refused shift creation is a 404 exactly when the body is valid and the schedule is not found, otherwise a 400 |
| CheckoutPanel.FindByKey | final-project/front-end/src/components/pages/Cashier/CheckoutPanel/CheckoutPanel.js:56 | the first item with the key, or nothing exactly when no item has it |
| CheckoutPanel.MenuKeysSelectTheirItem | final-project/front-end/src/components/pages/Cashier/CheckoutPanel/CheckoutPanel.js:12-28 | each of the keys '1', '2', '3' finds the menu item carrying it |
| CheckoutPanel.ForeignKeyFindsNothing | final-project/front-end/src/components/pages/Cashier/CheckoutPanel/CheckoutPanel.js:56 | any other key finds nothing, so the selection becomes `undefined` |
| CheckoutPanel.Panel.constructor | final-project/front-end/src/components/pages/Cashier/CheckoutPanel/CheckoutPanel.js:34-41 | initially not collapsed, item '1' selected, not working |
| CheckoutPanel.Panel.ToggleCollapsed | final-project/front-end/src/components/pages/Cashier/CheckoutPanel/CheckoutPanel.js:43-47 | flips `collapsed` and nothing else |
| CheckoutPanel.Panel.ToggleCollapsedTwice | final-project/front-end/src/components/pages/Cashier/CheckoutPanel/CheckoutPanel.js:43-47 | toggling twice leaves the whole state as it was |
| CheckoutPanel.Panel.HandleSelectMenuItem | final-project/front-end/src/components/pages/Cashier/CheckoutPanel/CheckoutPanel.js:49-75 | the same key changes nothing, even while working; when not working, the selection switches; when working, confirming switches it and clears `onWorking`, and declining changes nothing; `collapsed` never changes; clicks on the menu's own keys keep the selection one of the menu's items |
| CheckoutPanel.Panel.SetOnWorking | final-project/front-end/src/components/pages/Cashier/CheckoutPanel/CheckoutPanel.js:77-79 | sets `onWorking` and changes nothing else |
| Toolbar.IndexOf | final-project/front-end/src/components/layout/Toolbar/Toolbar.js:14 | the first occurrence of `"***"` at or after a position, or nothing exactly when there is none |
| Toolbar.Split | final-project/front-end/src/components/layout/Toolbar/Toolbar.js:14 | `split("***")`: at least one piece; the whole string when it holds no separator |
| Toolbar.Join | final-project/front-end/src/components/layout/Toolbar/Toolbar.js:14 | the pieces joined by `"***"`, starting with the first piece |
| Toolbar.JoinSplit | final-project/front-end/src/components/layout/Toolbar/Toolbar.js:14 | joining the pieces of a split gives the string back |
| Toolbar.Encode | final-project/front-end/src/components/layout/Toolbar/Toolbar.js:55 | the menu key is the entry's key, the separator right after it, then the path |
| Toolbar.Decode | final-project/front-end/src/components/layout/Toolbar/Toolbar.js:14-16 | the key is the first piece; the path is the second piece, present exactly when the string holds a separator |
| Toolbar.DecodeEncode | final-project/front-end/src/components/layout/Toolbar/Toolbar.js:14-55 | decoding an entry's menu key gives back its key and path when neither holds `"***"` and the key does not end in `*` |
| Toolbar.KeyEndingInStarMisdecodes | final-project/front-end/src/components/layout/Toolbar/Toolbar.js:14-16 | without the last condition the round trip fails: key `a*` with path `/x` decodes as key `a` and path `*/x` |
| Toolbar.LogoutEntryDecodes | final-project/front-end/src/components/layout/Toolbar/Toolbar.js:64 | the built-in entry's key `LOGOUT` holds no separator and decodes to key `LOGOUT` with no path |
| Toolbar.ToolbarState.Logout | final-project/front-end/src/components/layout/Toolbar/Toolbar.js:26-31 | removes the token and the user cookie, pushes `/login`, and changes nothing else |
| Toolbar.ToolbarState.HandleSelectMenuItem | final-project/front-end/src/components/layout/Toolbar/Toolbar.js:13-24 | a decoded key `LOGOUT` logs out and does not navigate to the decoded path; any other key leaves the cookies alone and pushes exactly one entry, the decoded path |
| Toolbar.ToolbarState.ClickAvatarItem | final-project/front-end/src/components/layout/Toolbar/Toolbar.js:53-59 | sets the page title, icon and sidebar index from the entry, then dispatches on the entry's menu key |
| Toolbar.ToolbarState.ClickLogoutEntry | final-project/front-end/src/components/layout/Toolbar/Toolbar.js:64 | clicking the built-in entry logs out |
| Toolbar.AvatarItemNavigatesToItsPath | final-project/front-end/src/components/layout/Toolbar/Toolbar.js:53-59 | a well-formed entry dispatches on its own key and its own path |

## Left out

- Request schemas: each Joi schema is the parameter `validates`, and a schema failure is the single error `ValidationFailed` with status 400.
- Permission lookup: the importer-role lookup is the boolean parameter `isImporter`.
- Document store internals: `save`, `populate` projections, and the `ObjectId` conversion of a malformed id are not modelled; a malformed id counts as one that names no document. `getProducts` and `getWorkShifts` are not modelled.
- Strict schemas: Mongoose drops body fields its model does not declare when it saves. The model stores every field of the body.
- Concurrency: each request runs alone and atomically. The `Promise.all` fan-out of `getWorkSchedules` is sequential loops, which keep the same order. The race between two identical creations, which can break uniqueness, is not modelled.
- WorkScheduleController.GetWorkSchedules: an assignment's `assigner` is its id, not the populated user profile.
- Numbers are exact reals: NaN, floating-point rounding, and string-to-number coercion in `< 0` are not modelled. Schedule months and years are integers.
- Dates: a time field is the time value `new Date(...)` produced, with `None` for an Invalid Date; string parsing is not modelled. The local time zone is a fixed offset; daylight-saving changes are not modelled.
- Logging, the `next(error)` path for thrown errors, and the response envelope (messages, `data` wrapper) are not modelled. Only the status and the error code are.
- ProductController.UpdateProduct: the category and supplier lists are not updated when the body changes `category` or `supplier`, because the source does not update them either.
- CheckoutPanel.Panel.HandleSelectMenuItem: the confirmation dialog is asynchronous in the source. The model takes the user's answer as the parameter `confirmed` and applies it at once, so state changes made while the dialog is open are not modelled.
- Front-end rendering, menu icons, the cookie library and router history are left out. Cookies are a set, and history is the list of pushed paths, with `None` for a push of `undefined`.
- Toolbar: the model has the avatar entry's own click handler run before the menu's handler.
- RevenueStatistic and ProductQuantityStatistic (chart configuration) and the importing-request routes are not part of this model.
