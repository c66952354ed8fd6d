# smallbiz-operations-hub, modelled in Dafny

This project models the logic inside the smallbiz-operations-hub React
application and proves properties of it. The logic falls into four groups:

- **Employee records** (`EmployeeTypes`, `EmployeeData`, `EmployeeGenerators`,
  `EmployeeDetails`, `EmployeeTable`, `EmployeeStats`):
  - the employee, attendance and payment records;
  - lookup by id, the upsert of today's attendance and the prepend of a payment;
  - the sample-history generators;
  - the status override applied before an attendance is stored;
  - the "today's attendance" fallback and the initial attendance form;
  - the payment form and its payload;
  - the attendance captions of the employee table;
  - the department and active-employee counts.
- **The point-of-sale cart** (`Pos`): the category tabs, the product filter,
  adding, removing and re-quantifying cart lines, subtotal, discount and total,
  and checkout.
- **Product and customer management** (`Products`, `CustomerManagement`):
  - edit-by-id, add and confirmed delete;
  - form validation;
  - the low-stock rule, the value cards and the VIP count;
  - the customer search plus tab filter and the type badge.
- **Small string logic**:
  - the chat assistant's keyword reply (`ChatBot`);
  - the bottom navigation's active-item rule (`BottomNav`);
  - the route-to-channel lookup (`DiscordLayout`);
  - the case-insensitive search that seven list pages share. It is defined once,
    generically, in `Search`, and instantiated by `EmployeesPage`, `CustomersPage`,
    `BillingPage`, `SalesPage`, `InventoryPage`, `AdjustmentsPage` and
    `CategoriesPage`.

How the application's data and effects are represented:

- Every mutator is a pure function from the old state to the new one. The
  application's React state setters and its module-level arrays become these
  functions' arguments and results.
- Dates are day numbers (`EmployeeTypes.Day`). The 'yyyy-MM-dd' strings of the
  source order exactly as these numbers do.
- The current day, the current 'HH:mm' time, fresh ids and `Math.random()` draws
  are parameters. A draw is a `real` in [0, 1).
- Lower-casing is ASCII only. `String.prototype.trim` uses the exact
  ECMAScript white-space and line-terminator set.
- Cart prices are integer cents. Product and customer money is `real`.

Shared helpers live in `Wrappers` (`Option`), `Text` (trim, lower-case,
substring search, split/join, initials, decimal digits) and `Collections`
(filter, subsequence, counting, de-duplication).

## Model

| member | source | states |
|---|---|---|
| EmployeeTypes.ParseEmployeeStatus | src/types/employee.ts:10 | An employee status is exactly one of "Active", "On Leave", "Inactive": exactly these three strings parse, and each parses back to its own spelling |
| EmployeeTypes.ParseAttendanceStatus | src/types/employee.ts:17-23 | An attendance status is exactly one of "Present", "Absent", "Late", "Half-day"; check-in, check-out and note are optional fields of the record |
| EmployeeTypes.ParsePaymentMode | src/types/employee.ts:29 | A payment mode is exactly one of the four listed spellings |
| EmployeeTypes.ParsePaymentStatus | src/types/employee.ts:30 | A payment status is exactly one of "Pending", "Completed", "Failed" |
| EmployeeTypes.NamesParseBack | src/types/employee.ts:2-36 | Every enumerated value survives being spelled out and parsed back |
| EmployeeData.GetEmployeeById | src/data/employeeData.ts:139-141 | There is no result exactly when no employee has the id; otherwise the result is the first employee with that id |
| EmployeeData.UpsertToday | src/data/employeeData.ts:152-168 | An existing record for today is rewritten where it stands: status and note are replaced (the note is cleared when none is passed), the check-in is filled in only when the new status is not Absent and none exists, and an existing check-in is kept. Without one, a new record with a check-in exactly when not Absent goes in front of the unchanged old list |
| EmployeeData.UpsertKeepsOneRecordPerDay | src/data/employeeData.ts:152-168 | If dates are distinct before the upsert they stay distinct, and exactly one record is dated today, carrying the requested status |
| EmployeeData.UpdateEmployeeAttendance | src/data/employeeData.ts:144-171 | An unknown id changes nothing and returns none; otherwise only the first employee with the id changes, to the upserted attendance, and that copy is returned |
| EmployeeData.UpdateKeepsOneRecordPerDay | src/data/employeeData.ts:144-171 | Every employee keeps at most one record per day through an update, and the updated employee has exactly one record for today, with the requested status |
| EmployeeData.SecondUpdateRewrites | src/data/employeeData.ts:153-160 | Marking the same employee twice on one day does not add a second record: the list length stays the same and today's one record carries the second status |
| EmployeeData.AddPaymentRecord | src/data/employeeData.ts:174-188 | An unknown id changes nothing and returns none; otherwise exactly one payment, the draft with the new id, goes in front of the old payments, and nothing else changes |
| EmployeeData.PrependNewestFirst | src/data/employeeData.ts:181-186 | With no re-sort, a newest-first list stays newest first after the prepend exactly when the new payment is no older than the old head |
| EmployeeGenerators.StatusFromDraw | src/data/employeeData.ts:13-16 | A draw above 0.8 means Absent, one in (0.7, 0.8] Late, one in (0.6, 0.7] Half-day, and anything else Present |
| EmployeeGenerators.CheckInTime | src/data/employeeData.ts:21 | A generated check-in time starts with hour "08:" or "09:" |
| EmployeeGenerators.CheckOutTime | src/data/employeeData.ts:22 | A generated check-out time starts with hour "17:", "18:" or "19:" |
| EmployeeGenerators.GenerateAttendanceRecords | src/data/employeeData.ts:6-26 | Asked for n days, the generator yields max(n, 0) records. Record i is dated today minus i, so dates are distinct and strictly newest first. Each status follows its draw, check-in and check-out are present exactly when the status is not Absent, and no note is set |
| EmployeeGenerators.InsertCounts | src/data/employeeData.ts:48 | Inserting a payment adds exactly one occurrence of it and keeps every other payment |
| EmployeeGenerators.InsertSorted | src/data/employeeData.ts:48 | Inserting a payment into a newest-first list keeps it newest first |
| EmployeeGenerators.SortNewestFirst | src/data/employeeData.ts:48 | The sort by date, descending, returns a newest-first permutation of its input |
| EmployeeGenerators.MonthlyPayment | src/data/employeeData.ts:36-45 | A monthly salary is a whole amount in [2000, 2999], Pending exactly when its draw exceeds 0.9 and otherwise Completed, described "Monthly salary", with a period ending on the payment date |
| EmployeeGenerators.GeneratePaymentRecords | src/data/employeeData.ts:29-49 | Asked for n months, the generator yields max(n, 0) payments, newest first. Each has an amount in [2000, 2999], status Pending or Completed, the salary description and a period ending on its date, and each comes from one of the month slots. The records are exactly the payments computed for the first n months, reordered |
| Text.OrFallback | src/pages/employees/EmployeeDetails.tsx:190 | `value \|\| fallback` on an optional string: a missing or empty value gives the fallback, any other value is kept |
| EmployeeDetails.Override | src/pages/employees/EmployeeDetails.tsx:183-191 | A non-Active employee is never stored as Present. Inactive plus Present becomes Absent with the fixed note, discarding the caller's. On Leave plus Present becomes Absent, keeping a non-empty note or else "Employee is on leave". Every other request passes unchanged |
| EmployeeDetails.OverrideIdempotent | src/pages/employees/EmployeeDetails.tsx:183-191 | Applying the override to its own result changes nothing |
| EmployeeDetails.OnAttendanceSubmit | src/pages/employees/EmployeeDetails.tsx:181-199 | An unknown employee leaves the store unchanged; otherwise the overridden request, and only it, is handed to the attendance update |
| EmployeeDetails.OneRecordForDecidesStatus | src/data/employeeData.ts:153-168 | When exactly one record is dated a day, it has a given status exactly when that status is the one stored |
| EmployeeDetails.SubmitNeverStoresPresentForInactive | src/pages/employees/EmployeeDetails.tsx:181-193 | After a submit, the employee's status is unchanged, today's single record has the overridden status, and a non-Active employee never has today's record stored as Present |
| EmployeeDetails.TodayAttendance | src/pages/employees/EmployeeDetails.tsx:224-239 | A stored record for today is returned as it is, whatever the employee's status. Without one, an Inactive or On Leave employee gets a made-up Absent record for today with the matching note, and an Active employee gets none |
| EmployeeDetails.TodayShowsLatestUpdate | src/pages/employees/EmployeeDetails.tsx:193-195 | After an update, today's attendance shows the status and note just stored |
| EmployeeDetails.InitialAttendanceForm | src/pages/employees/EmployeeDetails.tsx:95-112 | The form starts from today's stored status when there is one; otherwise Absent with the inactive or on-leave note for those employees, and Present for an Active one |
| EmployeeDetails.InitialFormMirrorsToday | src/pages/employees/EmployeeDetails.tsx:95-112 | The initial form shows exactly what today's attendance fallback shows, with an empty note when there is none, and Present when there is no record at all |
| EmployeeDetails.CheckPaymentForm | src/pages/employees/EmployeeDetails.tsx:57-62 | The payment form is accepted exactly when the amount is positive and the description has at least 3 characters; each failure gives its own message |
| EmployeeDetails.PaymentPayload | src/pages/employees/EmployeeDetails.tsx:203-213 | The payload copies date, amount, mode and description from the form, is always Completed, and covers the period from the first of the month to today |
| EmployeeDetails.OnPaymentSubmit | src/pages/employees/EmployeeDetails.tsx:201-222 | An invalid form changes nothing. A valid form hands the form's payload to `AddPaymentRecord`, so for a known employee a payment is always stored: it heads the employee's list with the new id, the form's date, mode and description, a positive amount, status Completed and a period ending today, followed by the older payments unchanged |
| EmployeeDetails.PaymentTodayKeepsNewestFirst | src/pages/employees/EmployeeDetails.tsx:201-222 | A payment dated today, added when no stored payment is later than today, keeps every employee's payments newest first |
| EmployeeTable.TodayCaption | src/components/employees/EmployeeTable.tsx:61-88 | A stored record for today is captioned by its status alone, even for Inactive or On Leave employees; without one the employee's status decides between "Inactive", "On Leave" and "Not Recorded" |
| EmployeeTable.CaptionsDistinguishCases | src/components/employees/EmployeeTable.tsx:65-87 | The caption tells whether a record is stored, and equal captions mean equal stored statuses, or equal employee statuses when nothing is stored |
| EmployeeTable.CaptionFollowsUpdate | src/components/employees/EmployeeTable.tsx:76-84 | After an attendance update the table caption is the caption of the status just stored |
| Text.InitialsAreWordStarts | src/components/employees/EmployeeTable.tsx:56-58 | The initials are the first character of every non-empty space-separated word, in order, and contain no space |
| Text.InitialsOfWords | src/pages/Employees.tsx:141-143 | A name written as space-separated words has as initials the first characters of its non-empty words, and no more initials than words |
| Text.SplitJoinRoundTrip | src/pages/Customers.tsx:155-157 | Words without spaces, joined with spaces and split again, come back unchanged, empty words included |
| Text.JoinSplitRoundTrip | src/pages/Customers.tsx:155-157 | Splitting on spaces loses nothing: joining the pieces with spaces gives the input back |
| EmployeeStats.BumpKeys | src/components/employees/EmployeeStats.tsx:13 | Counting an employee keeps the department order: a known department leaves the keys as they were, a new one is appended after the others |
| EmployeeStats.BumpCounts | src/components/employees/EmployeeStats.tsx:13 | Counting an employee adds one to that department's count (reading an absent one as 0) and leaves every other count unchanged |
| EmployeeStats.BumpTotal | src/components/employees/EmployeeStats.tsx:13 | Counting an employee adds one to the sum of the counts |
| EmployeeStats.BumpWellFormed | src/components/employees/EmployeeStats.tsx:13 | Counting an employee keeps one tally per department, each with a count of at least one |
| EmployeeStats.Reduce | src/components/employees/EmployeeStats.tsx:12-15 | Folding employees into the tallies adds each department's number of occurrences to its count and keeps one key per department with a count of at least one |
| EmployeeStats.DepartmentCounts | src/components/employees/EmployeeStats.tsx:12-15 | Each department appears once, exactly when some employee works in it, with a count of at least one equal to its number of employees; the counts sum to the number of employees |
| EmployeeStats.DepartmentsShown | src/components/employees/EmployeeStats.tsx:48 | The number of departments shown is the number of distinct department names |
| EmployeeStats.ActiveEmployees | src/components/employees/EmployeeStats.tsx:17 | The active count is the number of employees with status Active, at most the total, and equal to it exactly when everyone is active |
| Pos.Categories | src/pages/POS.tsx:146 | The tabs are "all" followed by each product category exactly once |
| Pos.CategoriesInFirstOccurrenceOrder | src/pages/POS.tsx:146 | The category tabs appear in the order of each category's first product |
| Pos.FilterProducts | src/pages/POS.tsx:148-153 | A product is listed exactly when its name or SKU contains the query case-insensitively and the tab is "all" or its category; an empty query lists the whole tab; each listed product appears as often as in the catalogue, in order |
| Pos.AddToCart | src/pages/POS.tsx:155-180 | A product already in the cart raises that line's quantity by one with total quantity × price, and the length is unchanged; a new product appends one line with quantity 1 and total equal to its price |
| Pos.AddKeepsCartValid | src/pages/POS.tsx:155-180 | Adding a catalogue product keeps one line per product, every quantity at least 1 and every total equal to quantity × price, and every line tied to its catalogue price |
| Pos.AddTwiceMerges | src/pages/POS.tsx:156-163 | Adding the same product twice gives one line of quantity 2, not two lines |
| Pos.RemoveFromCart | src/pages/POS.tsx:182-184 | Removal drops exactly the lines with that id and keeps the others, with their multiplicities, in order |
| Pos.RemoveKeepsCartValid | src/pages/POS.tsx:182-184 | Removing a line keeps the cart invariant |
| Pos.UpdateQuantity | src/pages/POS.tsx:186-199 | A quantity below 1 changes nothing; otherwise only the matching line changes, to that quantity with total quantity × price |
| Pos.UpdateKeepsCartValid | src/pages/POS.tsx:186-199 | Changing a quantity keeps the cart invariant, so every quantity stays at least 1 |
| Pos.SubtotalAfterAdd | src/pages/POS.tsx:155-180 | Adding a product raises the subtotal by exactly its price |
| Pos.Total | src/pages/POS.tsx:201-203 | Total plus discount is the subtotal, and for a discount percentage in [0, 100] the total lies between 0 and the subtotal |
| Pos.ToggleDiscount | src/pages/POS.tsx:406 | The discount button switches 0% to 10% and anything else to 0% |
| Pos.DiscountStaysInRange | src/pages/POS.tsx:406 | From 0% or 10%, any number of presses leaves the discount at 0% or 10%, back where it started exactly after an even number of presses |
| Pos.TotalWithinSubtotal | src/pages/POS.tsx:201-203 | For a valid cart and a discount of 0% or 10%, the total lies between 0 and the subtotal |
| Pos.Checkout | src/pages/POS.tsx:205-215 | Checkout empties the cart, resets the discount to 0, the payment method to "cash" and the customer to "", and keeps the search and tab |
| Pos.CanPay | src/pages/POS.tsx:423 | Pay and Receipt are enabled exactly when the cart is not empty |
| Pos.CheckoutThenAdd | src/pages/POS.tsx:205-215 | After checkout the screen is the initial one apart from the search and tab, payment is disabled, and adding any product enables it again |
| Products.AcceptsEveryField | src/pages/Products.tsx:112-121 | The form is accepted exactly when each of its seven field checks passes: name of at least 2 characters, a non-empty category, SKU of at least 3, positive price and cost, non-negative whole stock and reorder level |
| Products.CheckProductForm | src/pages/Products.tsx:112-121 | Validation reports exactly the fields whose check fails, each once and in form order, and reports nothing exactly when the whole form is accepted |
| Products.Merge | src/pages/Products.tsx:176 | Editing keeps the product's id, takes every form field (a description the form leaves out keeps the old one), and yields a valid product from a valid form |
| Products.EditProduct | src/pages/Products.tsx:173-177 | Only products with the edited id change, by the merge; the length and every id are kept |
| Products.EditIdempotent | src/pages/Products.tsx:173-177 | Saving the same edit twice gives the same list as saving it once |
| Products.AddProduct | src/pages/Products.tsx:182-188 | Adding appends exactly one product, carrying the fresh id and the form values, after the unchanged old list |
| Products.DeleteProduct | src/pages/Products.tsx:197-206 | An unconfirmed delete changes nothing; a confirmed one removes exactly the products with that id and keeps every other product as often as it occurred, in order |
| Products.AddThenDeleteRestores | src/pages/Products.tsx:182-206 | Deleting a product just added under a fresh id restores the list |
| Products.LowStockCount | src/pages/Products.tsx:239 | The low-stock card counts the products whose stock is at most their reorder level, and is zero exactly when none is |
| Products.InventoryValue | src/pages/Products.tsx:250 | The inventory value of form-valid products is never negative |
| Products.PotentialRevenue | src/pages/Products.tsx:261 | The potential revenue of form-valid products is never negative |
| Products.CardsAfterAdd | src/pages/Products.tsx:250-261 | Adding a product raises the inventory value by cost × stock and the potential revenue by price × stock |
| CustomerManagement.CheckCustomerForm | src/pages/CustomerManagement.tsx:124-130 | The customer form is accepted exactly when the name has at least 2 characters, the email is valid and the phone has at least 10; each failure gives its own message |
| CustomerManagement.Merge | src/pages/CustomerManagement.tsx:177-178 | Editing keeps id, join date, total spent, last purchase and purchase count, takes name, email and phone, and keeps address and type when the form leaves them out |
| CustomerManagement.EditCustomer | src/pages/CustomerManagement.tsx:175-179 | Only customers with the edited id change; the length is kept |
| CustomerManagement.EditKeepsHistory | src/pages/CustomerManagement.tsx:175-179 | An edit never alters a customer's id, join date, total spent or purchase count, and saving it twice equals saving it once |
| CustomerManagement.AddCustomer | src/pages/CustomerManagement.tsx:184-199 | Adding appends one customer with the fresh id and the current UTC date, no spending or purchases, address defaulting to "" and type defaulting to "regular" |
| CustomerManagement.DeleteCustomer | src/pages/CustomerManagement.tsx:207-216 | An unconfirmed delete changes nothing; a confirmed one removes exactly the customers with that id and keeps every other customer as often as it occurred, in order |
| CustomerManagement.AddThenDeleteRestores | src/pages/CustomerManagement.tsx:184-216 | Deleting a customer just added under a fresh id restores the list |
| CustomerManagement.FilterCustomers | src/pages/CustomerManagement.tsx:218-224 | A customer is listed exactly when name or email contains the query case-insensitively or the phone contains it verbatim, and the tab is "all" or the customer's type, each listed customer as often as in the list, in order |
| CustomerManagement.VipCount | src/pages/CustomerManagement.tsx:274 | The VIP card counts the customers of type "vip" and is at most the total |
| CustomerManagement.VipTabMatchesCard | src/pages/CustomerManagement.tsx:264-274 | The VIP tab with an empty search lists as many customers as the VIP card shows |
| CustomerManagement.TypeBadge | src/pages/CustomerManagement.tsx:232-241 | "vip" gives VIP, "new" gives New, and any other type gives Regular |
| CustomerManagement.AddedWithoutTypeIsRegular | src/pages/CustomerManagement.tsx:195 | A customer added without a type is badged Regular and leaves the VIP count unchanged |
| ChatBot.InitialChat | src/components/chat/ChatBot.tsx:18-26 | The chat opens with the single greeting from the assistant, an empty input and no typing indicator |
| ChatBot.FirstKeyword | src/components/chat/ChatBot.tsx:55-61 | The search stops at the first keyword, in the listed order, that the lower-cased input contains |
| ChatBot.ReplyFor | src/components/chat/ChatBot.tsx:44-61 | The reply is the response of the first keyword of invoice, customer, payment, help, settings that the lower-cased input contains, and it is the default text exactly when none is contained |
| ChatBot.ReplyIgnoresCase | src/components/chat/ChatBot.tsx:55 | The reply does not depend on the case of ASCII letters in the input |
| ChatBot.Send | src/components/chat/ChatBot.tsx:28-40 | White-space-only input changes nothing; otherwise the untrimmed input is appended as a user message, the input is cleared and typing is shown |
| ChatBot.Answer | src/components/chat/ChatBot.tsx:63-70 | The answer appends exactly one assistant message with the reply and clears typing |
| ChatBot.ExchangeAppendsRound | src/components/chat/ChatBot.tsx:28-72 | A full exchange on a non-blank input appends the user's untrimmed text and then the reply to it, clears the input and leaves nothing pending |
| ChatBot.ExchangeKeepsTurns | src/components/chat/ChatBot.tsx:28-72 | A full exchange keeps assistant and user taking turns with the assistant speaking last, and a blank input leaves the chat unchanged |
| ChatBot.GreetingStartsTurns | src/components/chat/ChatBot.tsx:18-24 | The greeting alone already alternates correctly |
| BottomNav.IsActive | src/components/mobile/BottomNav.tsx:41-42 | The root item is active only on "/" itself; any other item is active exactly when the path starts with its path |
| BottomNav.AtMostOneActive | src/components/mobile/BottomNav.tsx:21-27 | For the fixed items, no two are active at once on any path |
| BottomNav.PathsPrefixFree | src/components/mobile/BottomNav.tsx:21-27 | No non-root item path is a prefix of another item's path |
| BottomNav.Click | src/components/mobile/BottomNav.tsx:29-35 | Clicking an item navigates to a path on which that item is active |
| BottomNav.ClickHighlightsOnlyThatItem | src/components/mobile/BottomNav.tsx:29-42 | After clicking an item, that item and no other is active |
| BottomNav.RawPrefixMatch | src/components/mobile/BottomNav.tsx:42 | The rule is a raw prefix test, not segment-aware: "/posx" and "/pos/receipt" both activate the "/pos" item |
| DiscordLayout.Lookup | src/components/layout/DiscordLayout.tsx:25 | A route table lookup finds nothing exactly when no entry has the path, and otherwise returns a listed channel for that path |
| DiscordLayout.ChannelName | src/components/layout/DiscordLayout.tsx:10-26 | The channel is never empty, is "general" for any unlisted path, and is always "general" or the listed channel of the path |
| DiscordLayout.ListedRoutes | src/components/layout/DiscordLayout.tsx:11-23 | Each of the eleven listed paths maps to its listed channel |
| DiscordLayout.SubPathsAreGeneral | src/components/layout/DiscordLayout.tsx:25 | Matching is exact: a sub-path such as "/analytics/sales" falls back to "general" |
| Text.TrimEmptyIffBlank | src/pages/Employees.tsx:108 | `query.trim() === ''` holds exactly for queries of white space only |
| Text.ContainsIffOccurs | src/pages/Employees.tsx:113-116 | `includes` holds exactly when the query occurs at some position of the text |
| Text.LowerIdempotent | src/pages/Employees.tsx:113 | Lower-casing twice is lower-casing once |
| Search.SearchList | src/pages/Employees.tsx:104-121 | A blank query shows the whole sample. Otherwise a row is shown exactly when one of its folded fields contains the untrimmed query case-insensitively or one of its exact fields contains it verbatim. Every row keeps its multiplicity and the sample's order |
| Search.ReplayShowsLatestQuery | src/pages/Employees.tsx:104-121 | After any sequence of typed queries, the page shows the latest query and the rows for it alone, whatever came before |
| EmployeesPage.FilterEmployees | src/pages/Employees.tsx:108-117 | A blank query lists all employees; otherwise exactly those whose name, email, role or department contains the query case-insensitively, each as often as in the sample, in order |
| EmployeesPage.LatestQueryDecides | src/pages/Employees.tsx:111 | The list depends only on the latest query |
| CustomersPage.FilterCustomers | src/pages/Customers.tsx:118-126 | A blank query lists all customers; otherwise exactly those whose name or email contains the query case-insensitively or whose phone contains it verbatim, each as often as in the sample, in order |
| CustomersPage.LatestQueryDecides | src/pages/Customers.tsx:121 | The list depends only on the latest query |
| CustomersPage.StatusBadge | src/pages/Customers.tsx:132-141 | The badge shows the status itself; it is styled as active exactly for "Active" and muted exactly for "Inactive" |
| BillingPage.FilterInvoices | src/pages/Billing.tsx:100-107 | A blank query lists all invoices; otherwise exactly those whose number or customer contains the query case-insensitively, each as often as in the sample, in order |
| BillingPage.LatestQueryDecides | src/pages/Billing.tsx:103 | The list depends only on the latest query |
| SalesPage.FilterSales | src/pages/Sales.tsx:118-125 | A blank query lists all sales; otherwise exactly those whose order number or customer contains the query case-insensitively, each as often as in the sample, in order |
| SalesPage.LatestQueryDecides | src/pages/Sales.tsx:121 | The list depends only on the latest query |
| InventoryPage.FilterInventory | src/pages/Inventory.tsx:19-26 | A blank query lists the whole inventory; otherwise exactly the items whose name or category contains the query case-insensitively, each as often as in the sample, in order |
| InventoryPage.LatestQueryDecides | src/pages/Inventory.tsx:22 | The list depends only on the latest query |
| AdjustmentsPage.FilterAdjustments | src/pages/inventory/InventoryAdjustments.tsx:102-110 | A blank query lists all adjustments; otherwise exactly those whose reference, reason or adjuster contains the query case-insensitively, each as often as in the sample, in order |
| AdjustmentsPage.LatestQueryDecides | src/pages/inventory/InventoryAdjustments.tsx:105 | The list depends only on the latest query |
| AdjustmentsPage.StatusBadge | src/pages/inventory/InventoryAdjustments.tsx:116-127 | The badge shows the status itself, styled as success exactly for "Completed", warning exactly for "Draft" and destructive exactly for "Cancelled" |
| CategoriesPage.FilterCategories | src/pages/inventory/InventoryCategories.tsx:88-95 | A blank query lists all categories; otherwise exactly those whose name or description contains the query case-insensitively, each as often as in the sample, in order |
| CategoriesPage.LatestQueryDecides | src/pages/inventory/InventoryCategories.tsx:91 | The list depends only on the latest query |

## Left out

- Randomness and ids. `Math.random()` draws, the `PAY-` payment ids, and the `Date.now()` ids of cart lines, products and customers are parameters. Nothing here claims that ids are unique, because the source does not guarantee it.
- The clock and the date library: `new Date()`, `format`, `subDays`, `subMonths` and the first day of the month. The current day, the 'HH:mm' time and the per-month `(date, from)` slots of the payment generator are parameters, already computed.
- The two notions of "today". The customer page stamps a new customer with the UTC calendar date (`toISOString`), while the employee pages use the local date (`format`). Both reach the model as an already computed day parameter (`utcToday` for customers), so the model does not relate them and does not model the hours near midnight in which the two dates differ.
- EmployeeGenerators.CheckInTime: states only the hour prefix, not the unpadded minute digits that follow it.
- EmployeeGenerators.CheckOutTime: states only the hour prefix, not the unpadded minute digits that follow it.
- EmployeeGenerators.SortNewestFirst: states order and permutation but not stability. The generated payments have distinct month dates, so ties do not arise.
- Floating-point money. `toFixed`, `Intl.NumberFormat` and rounding for display are not modelled. Cart amounts are exact integer cents, and the discount and total are exact reals.
- React, the DOM and the device: hooks, rendering, dialogs, toasts, router navigation, `navigator.vibrate` and the ChatBot's one-second `setTimeout`. `window.confirm` is a boolean parameter. The chat is modelled as its message-list transitions only.
- zod's email check and `coerce.number`. Email validity is a predicate parameter, and form numbers are taken as already numeric.
- The "Unknown" caption of the employee table and the default branches of string unions. Statuses are enumerations, so values outside the union cannot arise.
- Full Unicode lower-casing. Only ASCII letters are folded.
- Shallow copies and aliasing. The source returns `{...employee}` while mutating the shared attendance and payment arrays in place; the model returns the new value directly.
- Key order of the department counts. JavaScript orders integer-like object keys before the others, so the insertion order the model's tallies keep is not claimed to be the order of the source's object keys.
- EmployeeStats.DepartmentCounts: treats every department name as an ordinary key. The source counts into a plain `{}`, so a name that is a property of `Object.prototype` misbehaves there: "toString" reads the inherited function, and an assignment to "__proto__" adds no key.
- EmployeeStats.DepartmentsShown: the same exception. A department named "__proto__" is not counted by the source's Departments card.
- UTF-16 code units. Dafny strings are sequences of Unicode scalar values, while `.length`, zod's `.min(n)` and `name[0]` count UTF-16 code units. A character outside the Basic Multilingual Plane counts once in the model and twice in the source, and `name[0]` of a word starting with one is a lone surrogate in the source but the whole character here. This affects the rows below.
- CustomerManagement.CheckCustomerForm: the minimum lengths of name and phone count characters, not UTF-16 code units.
- EmployeeDetails.CheckPaymentForm: the minimum length of the description counts characters, not UTF-16 code units.
- Products.AcceptsEveryField: the minimum lengths of name, category and SKU count characters, not UTF-16 code units.
- Products.CheckProductForm: reports failing fields, not their texts. A fractional stock or reorder level gets zod's default integer message in the source, not the custom text in `Products.Message`.
- Text.InitialsAreWordStarts: an initial is a whole character, not the first UTF-16 code unit.
- Text.InitialsOfWords: an initial is a whole character, not the first UTF-16 code unit.
- Sample data, hard-coded dashboard figures, charts, 3D scenes and static pages (Settings, Profile, Login, Signup, navigation bars, routing). They carry no logic to state.
- The payment status badge and the other colour classes of the employee pages are presentation only.
