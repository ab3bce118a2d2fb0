# Property management backend — a verified Dafny model

This project models the core of a property-management backend. The system keeps:

- buildings (properties);
- units, each either rented whole (`FULL_UNIT`) or room by room (`BEDROOM_WISE`), and each Vacant, Occupied, Fully Booked or Under Maintenance;
- the bedrooms of a unit;
- tenants, who are individuals, companies or the residents of a company;
- leases, which are DRAFT, Active, Expired or Moved;
- invoices, payments, refunds and a ledger of income and expense rows;
- insurance policies, communication logs and documents.

The model covers these parts of the system:

- the lease and occupancy state machine: activating a lease books a unit or a bedroom, and ending it, by hand or by the nightly expiry sweep, frees them again;
- the monthly rent batch, invoice editing, payments, refunds and the accounting views;
- the admin handlers that create, edit and delete units, tenants and properties, and the dashboards that count them;
- the small pure helpers: rounding, calendar arithmetic, serial numbers, template filling and SMS text.

How the model is built:

- The database is one class, `Store.Database`, with one `map` or `seq` field per table. `State()` packs the fields into the value `Store.Db`.
- Each request handler has two parts. A specification function computes the new `Db` (or the error the handler answers with) from the old one. A method that changes the database in place is proved to reach exactly that state.
- The scheduled jobs (the expiry sweeps and the rent batch) are methods whose loops go through the selected leases in order. Their invariants tie each loop to a fold of a step function over that order.
- Properties are stated as lemmas about the specification functions: which statuses change, what stays untouched, totals, and invariants kept across steps.
- Money is an integer number of cents. Dates are `Calendar.Date` values, and the current date or time is a parameter.

Two versions of the backend sit side by side: `src/` and `property_backend/src/`. Where both have a handler, the model follows the file cited in its row below.

## Model

| member | source | states |
|---|---|---|
| Money.RoundCents | src/modules/admin/lease.controller.js:777-779 | the pro-rated rent is the nearest whole number of cents to the exact quotient, never negative for a non-negative amount |
| Money.MathRound | src/modules/admin/admin.controller.js:204 | the nearest integer to the quotient, a tie going up |
| Money.UnsignedDollarText | src/modules/admin/refund.controller.js:64 | a printed amount starts with a digit |
| Money.WholeDollarText | src/modules/admin/refund.controller.js:64 | a whole number of dollars prints as its plain decimal digits |
| Calendar.DaysInMonth | src/modules/admin/lease.controller.js:775 | a month has 28 to 31 days, 29 exactly for February of a leap year |
| Calendar.MonthAt | src/modules/admin/lease.controller.js:746-802 | months are numbered consecutively, so the catch-up can step through them |
| Calendar.NextMonth | src/modules/admin/lease.controller.js:746-802 | the month after is the next month number, December rolling over to January |
| Calendar.AddDays | property_backend/src/modules/admin/tenant.controller.js:343-344 | k days later is a real calendar day, after the start when k is positive |
| Calendar.CeilDiv | property_backend/src/modules/admin/unit.controller.js:77 | the least integer whose multiple of the divisor reaches the dividend |
| Calendar.DaysUntil | property_backend/src/modules/admin/insurance.controller.js:100 | the whole days remaining, rounded up: the least count of days that reaches the end |
| Text.SerialDigits | src/modules/admin/refund.controller.js:42-43 | a minted number is the prefix followed by at least five digits that denote count + 1 |
| Text.SerialInjective | src/modules/admin/invoice.controller.js:158 | two different counts never mint the same number under one prefix |
| Store.SetUnitBedrooms | src/services/cron.service.js:87-90 | every bedroom of the unit takes the status and every other bedroom is unchanged |
| Store.WholeUnitVacated | src/services/cron.service.js:81-91 | releasing a whole unit leaves the unit and all its bedrooms Vacant |
| Store.DetachResidents | src/services/cron.service.js:54-57 | no user is added or removed |
| Store.LedgerWithout | property_backend/src/modules/admin/tenant.controller.js:448 | exactly the ledger rows of neither the invoices nor the payments remain |
| LeaseController.HttpStatus | src/modules/admin/lease.controller.js:518-538 | missing ids and refused states answer 400; a missing tenant, unit, bedroom or lease, and an update of a row that is gone (Prisma P2025), 404; a missing related row the handler dereferences 500; nothing else |
| LeaseController.CreateLeaseCheck | src/modules/admin/lease.controller.js:518-621 | missing unit or tenant id is refused first; a RESIDENT tenant is refused; an admitted full-unit request has no Occupied bedroom, no Active lease and no other tenant's DRAFT on the unit; an admitted bedroom request has the bedroom in the unit, no Active non-company full-unit lease, no other tenant's DRAFT full-unit lease, and the bedroom Vacant or reserved by a company lease without a resident |
| LeaseController.LeaseSlot | src/modules/admin/lease.controller.js:623-654 | the row written is the tenant's own DRAFT on this unit when it has one, otherwise a key not yet used |
| LeaseController.WholeUnitOccupied | src/modules/admin/lease.controller.js:657-680 | full-unit occupation makes every bedroom of the unit Occupied, the unit Occupied for a company and Fully Booked otherwise, in FULL_UNIT mode, and clears the tenant's bedroom |
| LeaseController.BedroomUnitStatus | src/modules/admin/lease.controller.js:705-737 | the unit is Occupied or Fully Booked; Fully Booked only when every bedroom is Occupied, and always then when no company holds the unit |
| LeaseController.BedroomOccupied | src/modules/admin/lease.controller.js:682-743 | bedroom occupation makes that bedroom Occupied, the unit BEDROOM_WISE with the status above, the tenant's bedroom the requested one, and touches no other bedroom |
| LeaseController.LinkCoTenants | src/modules/admin/lease.controller.js:841-861 | exactly the listed co-tenants get the lease, the unit, the building and (for a bedroom lease) the bedroom; every other user is unchanged |
| LeaseController.CreateLeaseSpec | src/modules/admin/lease.controller.js:515-863 | the request succeeds exactly when no validation fails, and a refused request writes nothing (the transaction rolls back) |
| LeaseController.CreateLease | src/modules/admin/lease.controller.js:515-863 | the method's result and new tables are those of the specification |
| LeaseController.WriteOccupation | src/modules/admin/lease.controller.js:656-744 | the status writes of an admitted create equal the specification's occupation step |
| LeaseController.OccupyUnit | src/modules/admin/lease.controller.js:657-680 | the unit and bedroom writes equal full-unit occupation |
| LeaseController.OccupyOneBedroom | src/modules/admin/lease.controller.js:682-743 | the bedroom, unit and tenant writes equal bedroom occupation |
| LeaseController.CreateWholeUnitOccupancy | src/modules/admin/lease.controller.js:657-680 | after a full-unit create the unit is Occupied (company) or Fully Booked and all its bedrooms are Occupied |
| LeaseController.CreateBedroomOccupancy | src/modules/admin/lease.controller.js:682-743 | after a bedroom create that bedroom is Occupied, the unit is Fully Booked only when every bedroom is Occupied, otherwise Occupied, and the tenant holds the bedroom |
| LeaseController.ActivateCheck | src/modules/admin/lease.controller.js:277-367 | an unknown lease is 404; a missing tenant or unit row is dereferenced (500) and nothing else is; an admitted full-unit activation has no Occupied bedroom; an admitted bedroom activation is not on a unit Fully Booked in FULL_UNIT mode; a tenant bedroom that does not exist fails the bedroom update (404) |
| LeaseController.ActivateLeaseSpec | src/modules/admin/lease.controller.js:277-469 | activation succeeds exactly when its checks pass; a refusal writes nothing |
| LeaseController.AttachResidents | src/modules/admin/lease.controller.js:326-330 | every RESIDENT whose parent is the tenant points at the lease; every other user is unchanged |
| LeaseController.WholeUnitBooked | src/modules/admin/lease.controller.js:332-347 | the unit is Fully Booked in FULL_UNIT mode and every bedroom of it Occupied; other units and bedrooms are unchanged |
| LeaseController.BedroomActivated | src/modules/admin/lease.controller.js:348-372 | the bedroom is Occupied, the unit BEDROOM_WISE and Fully Booked exactly when every bedroom is Occupied, otherwise Occupied |
| LeaseController.ActivateLease | src/modules/admin/lease.controller.js:277-469 | the method's result and new tables are those of the specification |
| LeaseController.WriteActivation | src/modules/admin/lease.controller.js:314-372 | the lease, resident and status writes equal the specification's activation step |
| LeaseController.BookUnit | src/modules/admin/lease.controller.js:332-347 | the writes equal whole-unit booking |
| LeaseController.OccupyActivatedBedroom | src/modules/admin/lease.controller.js:348-372 | the writes equal bedroom activation |
| LeaseController.ActivateOccupancy | src/modules/admin/lease.controller.js:314-372 | an activated lease is Active from today with the type its tenant's bedroom decides; a full-unit activation books the unit whole; a bedroom activation occupies the bedroom |
| LeaseController.ActivateLinksResidents | src/modules/admin/lease.controller.js:326-330 | after activation every resident of the tenant points at the lease |
| LeaseController.DeleteCheck | src/modules/admin/lease.controller.js:106-124 | an unknown lease is 404; an admitted Active lease has its unit and, for a bedroom lease, the bedroom it dereferences |
| LeaseController.BedroomReleased | src/modules/admin/lease.controller.js:143-170 | the bedroom turns Vacant; the unit turns Vacant exactly when every bedroom is Vacant, Occupied when one is still Occupied, and otherwise keeps its status |
| LeaseController.TenantUnlinked | src/modules/admin/lease.controller.js:173-183 | the tenant loses unit, bedroom and building; no resident still points at the lease; other users keep their links |
| LeaseController.DeleteLeaseSpec | src/modules/admin/lease.controller.js:106-209 | a refused delete writes nothing; a successful one removes the lease row; the "statuses reset" answer is given exactly for an Active lease |
| LeaseController.DeleteLease | src/modules/admin/lease.controller.js:106-209 | the method's result and new tables are those of the specification |
| LeaseController.ReleaseOccupancy | src/modules/admin/lease.controller.js:128-171 | the writes equal releasing the whole unit or the tenant's bedroom |
| LeaseController.DeleteActiveReleases | src/modules/admin/lease.controller.js:128-171 | deleting an Active full-unit lease makes the unit and all its bedrooms Vacant; deleting an Active bedroom lease makes that bedroom Vacant |
| LeaseController.DeleteActiveUnlinks | src/modules/admin/lease.controller.js:173-188 | deleting an Active lease clears the tenant's references, detaches the residents and removes the row |
| LeaseController.DeleteInactiveKeepsStatuses | src/modules/admin/lease.controller.js:192-204 | deleting a lease that is not Active changes no unit and no bedroom status |
| LeaseController.Renamed | src/modules/admin/lease.controller.js:225-235 | a given name replaces the old one, an absent one keeps it, the display name joins the two, and nothing else of the user changes |
| LeaseController.SyncUnpaidInvoices | src/modules/admin/lease.controller.js:254-268 | exactly the lease's unpaid zero-amount invoices take the new rent as rent, amount and balance; every other invoice is unchanged |
| LeaseController.UpdateCheck | src/modules/admin/lease.controller.js:218-243 | an admitted edit names a known lease and carries no rent that is unparsable or negative; a bad rent on a known lease is always refused; renaming a missing tenant is the user update's 404 when both names are given and a dereference (500) when one is taken from the tenant |
| LeaseController.UpdateLeaseSpec | src/modules/admin/lease.controller.js:212-274 | the edit succeeds exactly when its checks pass; a refusal writes nothing |
| LeaseController.UpdateLease | src/modules/admin/lease.controller.js:212-274 | the method's result and new tables are those of the specification |
| LeaseController.UpdateRentStored | src/modules/admin/lease.controller.js:239-268 | a rent edit stores the new rent on the lease and leaves every unit and bedroom unchanged |
| LeaseController.FirstMonthRent | src/modules/admin/lease.controller.js:771-781 | a start on day 1 bills the full rent; a later start bills rent times the remaining days over the month's days, rounded to the cent; a non-negative rent is never raised |
| LeaseController.ProRatedAtMost | src/modules/admin/lease.controller.js:777-780 | a cent-rounded pro-rated share of a non-negative rent is between 0 and the rent |
| LeaseController.RentInvoice | src/modules/admin/lease.controller.js:783-799 | the month's RENT invoice for the plan's tenant and unit has rent = amount = balanceDue = the month's rent, fees 0, paid 0, status "sent", and the lease id |
| LeaseController.CatchUpMonth | src/modules/admin/lease.controller.js:756-800 | one step keeps every existing invoice and leaves the month with a rent invoice |
| LeaseController.CatchUp | src/modules/admin/lease.controller.js:752-802 | the catch-up only adds invoices |
| LeaseController.CatchUpInvoices | src/modules/admin/lease.controller.js:746-802 | the while loop over months leaves the invoices the catch-up function describes, from the start month to the current month |
| LeaseController.CatchUpCovers | src/modules/admin/lease.controller.js:755-802 | after the catch-up every month from the start month to the current month has a rent invoice for the tenant and unit |
| LeaseController.RentInvoiceKey | src/modules/admin/lease.controller.js:758-765 | when a month has a rent invoice for the tenant and unit, the lookup yields the key of such a row |
| LeaseController.CatchUpAddsOnlyMissing | src/modules/admin/lease.controller.js:767-800 | every invoice the catch-up adds is an unpaid rent invoice of the plan for a month that had none |
| LeaseController.CatchUpOnePerMonth | src/modules/admin/lease.controller.js:755-802 | no month receives two invoices from one catch-up |
| LeaseController.NoRentInvoiceBefore | src/modules/admin/lease.controller.js:767 | a month without a rent invoice after a step had none before it |
| LeaseController.DepositInvoice | src/modules/admin/lease.controller.js:820-837 | the deposit invoice is a SERVICE "Security Deposit" of the lease with amount = fees = balance = the deposit and rent 0 |
| LeaseController.AddDeposit | src/modules/admin/lease.controller.js:804-839 | a deposit invoice is added exactly when the deposit is positive and the lease has none; afterwards a positive deposit has one, and a lease never gets a second |
| LeaseController.AddDepositInvoice | src/modules/admin/lease.controller.js:804-839 | the writes equal the deposit step |
| LeaseExpiry.RecomputedStatus | src/services/cron.service.js:99-121 | after a bedroom is released the unit keeps its status, turns Occupied, or turns Vacant, and it only turns Vacant when every bedroom of it is vacant |
| LeaseExpiry.Sweep | src/services/cron.service.js:42-132 | every selected lease is counted once, as processed or as failed |
| LeaseExpiry.SweepUnfolds | src/services/cron.service.js:45-130 | one turn of the loop is the first lease's writes followed by the sweep over the rest, with the counter of its outcome raised |
| LeaseExpiry.ExpireLeases | src/services/cron.service.js:24-133 | the for loop over the selected leases leaves the tables and the processed and failed counters the sweep function describes |
| LeaseExpiry.ExpireLease | src/services/cron.service.js:46-129 | one iteration's writes and outcome are those of the step function; a lease row that is gone fails |
| LeaseExpiry.ExpireLeaseRows | src/services/cron.service.js:47-123 | the lease, user, unit and bedroom writes of one lease, in the handler's order, equal the step function's |
| LeaseExpiry.UnlinkUsers | src/services/cron.service.js:53-68 | the user writes equal the unlinking function |
| LeaseExpiry.ReleaseLeaseHolding | src/services/cron.service.js:70-123 | the unit and bedroom writes equal the release function |
| LeaseExpiry.UnlinkRules | src/services/cron.service.js:53-68 | residents no longer point at the lease; a tenant with another Active lease is left alone; otherwise the tenant loses unit, bedroom and building, and the writes fail only when the tenant row is missing |
| LeaseExpiry.FullUnitRelease | src/services/cron.service.js:81-91 | a full-unit lease frees the unit and all its bedrooms exactly when the unit is not Under Maintenance and no other Active or DRAFT lease is on it, and otherwise changes nothing |
| LeaseExpiry.BedroomRelease | src/services/cron.service.js:92-122 | a bedroom lease's bedroom always becomes Vacant; an Under Maintenance unit is never changed; otherwise the unit is Vacant when all its bedrooms are vacant and no other lease exists, Occupied when a bedroom is occupied, Vacant when none is occupied and no other lease exists, and unchanged otherwise |
| LeaseExpiry.NoneOccupied | src/services/cron.service.js:103-104 | a unit whose bedrooms are all Vacant has none Occupied |
| LeaseExpiry.ReleaseInvariants | src/services/cron.service.js:70-123 | a release never occupies a bedroom, never changes which units are Under Maintenance, and a unit it turns Vacant has every bedroom vacant |
| LeaseExpiry.ExpireOneInvariants | src/services/cron.service.js:46-129 | the same three invariants hold for one lease's whole step |
| LeaseExpiry.ExpireOneLeases | src/services/cron.service.js:47-51 | of the leases, only the visited one changes, and only its status, to Expired |
| LeaseExpiry.NeverOccupiesKeepsVacant | src/services/cron.service.js:94-97 | a unit whose bedrooms were all vacant keeps them vacant across writes that never occupy a bedroom |
| LeaseExpiry.SweepInvariants | src/services/cron.service.js:45-130 | over the whole sweep no unit enters or leaves maintenance, no bedroom becomes occupied, and every unit the sweep turned Vacant has all its bedrooms vacant |
| LeaseExpiry.SweepLeases | src/services/cron.service.js:45-130 | the sweep sets exactly the visited leases to Expired and changes nothing else about any lease |
| LeaseExpiry.ExpirySweep | src/services/cron.service.js:24-132 | run on the selected leases, exactly the Active leases whose end date is before today become Expired, no Under Maintenance unit changes, and processed + failed is the number selected |
| UnitOnlyExpiry.ExpireUnitRows | property_backend/src/services/cron.service.js:47-68 | the lease becomes Expired and the unit table keeps its rows |
| UnitOnlyExpiry.ExpireOne | property_backend/src/services/cron.service.js:46-74 | one lease's step keeps the unit table's rows |
| UnitOnlyExpiry.Sweep | property_backend/src/services/cron.service.js:38-77 | every selected lease is counted once, as processed or as failed, so no selected leases gives 0 and 0 |
| UnitOnlyExpiry.SweepUnfolds | property_backend/src/services/cron.service.js:45-75 | one turn of the loop is the first lease's step followed by the sweep over the rest |
| UnitOnlyExpiry.ExpireLeases | property_backend/src/services/cron.service.js:24-78 | the for loop leaves the tables and counters the sweep function describes |
| UnitOnlyExpiry.ExpireLease | property_backend/src/services/cron.service.js:46-74 | one iteration's writes and outcome are the step function's |
| UnitOnlyExpiry.ExpireLeaseUnit | property_backend/src/services/cron.service.js:47-68 | the lease and unit writes equal the row function's |
| UnitOnlyExpiry.UnitRelease | property_backend/src/services/cron.service.js:53-68 | the unit becomes Vacant exactly when it is not Under Maintenance and no other Active or DRAFT lease is on it; otherwise the unit table is unchanged |
| UnitOnlyExpiry.ExpireOneFrame | property_backend/src/services/cron.service.js:45-76 | one lease's step touches no user and no bedroom and only sets that lease Expired |
| UnitOnlyExpiry.ExpireOneMaintenance | property_backend/src/services/cron.service.js:63 | no unit enters or leaves maintenance in one step |
| UnitOnlyExpiry.SweepFrame | property_backend/src/services/cron.service.js:45-76 | the whole sweep never modifies a bedroom or a user, sets exactly the visited leases Expired, and leaves Under Maintenance units alone |
| UnitOnlyExpiry.VacantUnitOverOccupiedBedroom | property_backend/src/services/cron.service.js:63-68 | for the only lease on a unit, an Active bedroom lease, expiry sets the unit Vacant while its bedroom stays Occupied |
| UnitOnlyExpiry.MainSweepFreesBedroom | src/services/cron.service.js:92-121 | the main backend's sweep on the same lease frees the bedroom with the unit |
| LeaseExpiry.ReleaseHeld | src/services/cron.service.js:70-123 | a release never adds or removes a unit |
| LeaseExpiry.ExpireRows | src/services/cron.service.js:47-123 | one lease's writes never add or remove a unit |
| LeaseExpiry.ExpireOne | src/services/cron.service.js:46-129 | one lease's step, a missing lease failing, never adds or removes a unit |
| RentBatch.DueDay | property_backend/src/services/invoice.cron.js:82 | the scheduled run's invoices fall due on the 5th and the manual run's on the 10th (src/modules/admin/invoice.controller.js:330), a day every month has |
| RentBatch.Bill | property_backend/src/services/invoice.cron.js:46-125 | one lease adds exactly one to created or skipped and exactly one log line |
| RentBatch.Run | property_backend/src/services/invoice.cron.js:45-126 | created + skipped rise by the number of leases visited, and one log line is written per lease |
| RentBatch.MonthlyRun | property_backend/src/services/invoice.cron.js:20-146 | the run adds one RentRun row for the month and leaves the others unchanged; it ends Failed exactly when the selection throws and Completed otherwise; it bills the Active leases that started by the run day and end after it (a lease ending on the run day is past once the clock is after midnight) |
| RentBatch.GenerateRentInvoices | property_backend/src/services/invoice.cron.js:15-147 | the method opens the run under a fresh id and leaves the invoice, log and run tables the run function describes, over the leases the query selects: Active, started by the run day, ending after it, of a non-resident tenant |
| RentBatch.BillAll | property_backend/src/services/invoice.cron.js:45-126 | the for loop with its three accumulators leaves the invoices, logs and counters of the run function |
| RentBatch.BillLease | property_backend/src/services/invoice.cron.js:46-125 | one iteration's writes and counters are those of the one-lease function, including the manual run's skip for a resident without a parent (src/modules/admin/invoice.controller.js:332-346) |
| RentBatch.AutoInvoiceShape | property_backend/src/services/invoice.cron.js:80-100 | a created invoice bills the lease's payer for the current month with rent = amount = balanceDue = the positive monthly rent, fees 0, paid 0, status "sent", due on the run's day, under the run's prefix |
| RentBatch.AddAccounted | property_backend/src/services/invoice.cron.js:84-112 | adding such an invoice for a lease not yet billed this month keeps the run's bookkeeping: count, shape, one per lease, and total = the sum of their rents |
| RentBatch.OthersBilledElsewhere | property_backend/src/services/invoice.cron.js:48-50 | no invoice the run made is for a lease that still has no rent invoice this month |
| RentBatch.BillAccounted | property_backend/src/services/invoice.cron.js:46-125 | one lease keeps the run's bookkeeping |
| RentBatch.RunAccounted | property_backend/src/services/invoice.cron.js:45-126 | the whole loop keeps the run's bookkeeping |
| RentBatch.BillLogs | property_backend/src/services/invoice.cron.js:53-123 | one lease adds one log line for this run and this lease, Success exactly when an invoice was created, and keeps every earlier invoice and line |
| RentBatch.RunLogs | property_backend/src/services/invoice.cron.js:45-126 | the run writes one log line per selected lease, in the query's order, and keeps every invoice that was there before |
| RentBatch.SettledStays | property_backend/src/services/invoice.cron.js:48-77 | a lease with nothing left to bill this month stays so as the run goes on |
| RentBatch.BillSettles | property_backend/src/services/invoice.cron.js:46-125 | after its turn a lease has its rent billed, a non-positive rent or no one to bill, unless its writes threw |
| RentBatch.RunSettles | property_backend/src/services/invoice.cron.js:45-126 | after the run every selected lease is settled for the month or logged as an Error |
| RentBatch.RunOnSettled | property_backend/src/services/invoice.cron.js:52-77 | a run over settled leases creates nothing, totals nothing, and skips every lease |
| RentBatch.RunRecord | property_backend/src/services/invoice.cron.js:111-137 | createdCount + skippedCount equals the number of candidates (Active leases started by the run day and ending after it, of an admitted tenant type); createdCount is the number of invoices added and totalAmount their rent; each added invoice has the promised shape, no two are for one lease, and earlier invoices are kept |
| RentBatch.CleanRunThenRerun | property_backend/src/services/invoice.cron.js:47-63 | once a run logged no Error, running again over the same leases from where it left off creates nothing |
| RentBatch.SecondRunCreatesNothing | property_backend/src/services/invoice.cron.js:47-63 | idempotence: after a completed run without errors, a second run for the same month selects the same leases, adds no invoice, totals 0 and skips every lease |
| InvoiceController.HttpStatus | src/modules/admin/invoice.controller.js:110-255 | a missing invoice answers 404, a thrown write 500, every refused request 400 |
| InvoiceController.Payer | src/modules/admin/invoice.controller.js:128-135 | a resident's invoices go to its parent and anyone else's to the tenant; the request is refused exactly when the tenant is a resident without a parent |
| InvoiceController.CreateInvoiceSpec | src/modules/admin/invoice.controller.js:106-190 | a refused request writes no invoice |
| InvoiceController.CreateInvoice | src/modules/admin/invoice.controller.js:106-190 | the method's answer and invoice table are those of the specification |
| InvoiceController.CreateInvoiceRejects | src/modules/admin/invoice.controller.js:110-146 | missing ids are refused, a tenant and unit without an Active lease are refused, rent and fees both positive are refused, and a refusal writes nothing |
| InvoiceController.CreatedInvoice | src/modules/admin/invoice.controller.js:141-182 | an accepted invoice is new, on an Active lease of that tenant and unit, billed to a resident's parent or else the tenant; a positive rent is replaced by the lease's rent; amount = rent + fees, balanceDue = amount, paid 0, status "draft" |
| InvoiceController.UpdateInvoiceSpec | src/modules/admin/invoice.controller.js:193-257 | an unknown invoice, or an amounts edit that makes both positive or does not parse, is refused with the invoice table unchanged; anything else succeeds |
| InvoiceController.UpdateInvoice | src/modules/admin/invoice.controller.js:193-257 | the method's answer, invoices and ledger are those of the as-written specification |
| InvoiceController.MarkPaidSettles | src/modules/admin/invoice.controller.js:209-231 | marking an invoice paid sets paidAmount = amount, balanceDue = 0 and paidAt, and appends one Income row for the amount |
| InvoiceController.EditRederivesAmounts | src/modules/admin/invoice.controller.js:233-246 | an accepted rent or fees edit sets amount = rent + fees and balanceDue = amount − paidAmount, never both positive, and writes no ledger row unless the invoice is marked paid |
| InvoiceController.RefusedEditLeavesIncomeRow | src/modules/admin/invoice.controller.js:209-239 | as written, a "paid" edit that also sets both rent and fees is answered 400 yet leaves an Income row in the ledger |
| InvoiceController.CheckedUpdateSpec | src/modules/admin/invoice.controller.js:193-257 | with the checks first, a refusal writes neither invoices nor ledger, an accepted edit does what the handler does, and the same requests are accepted |
| InvoiceController.CheckedUpdateInvoice | src/modules/admin/invoice.controller.js:193-257 | the method's answer, invoices and ledger are those of the checked specification |
| InvoiceController.CheckedRefusalWritesNothing | src/modules/admin/invoice.controller.js:233-239 | with the checks first, a refused edit is refused for the same reason and leaves no ledger row |
| InvoiceController.RepairListed | src/modules/admin/invoice.controller.js:35-67 | the listing's loop over the invoices leaves the table the repair function describes |
| InvoiceController.RepairComplete | src/modules/admin/invoice.controller.js:54-67 | afterwards no invoice needs repair; a repaired one carries the lease's positive rent as rent, amount and balance; the others are unchanged |
| InvoiceController.RepairIdempotent | src/modules/admin/invoice.controller.js:54-67 | listing twice repairs nothing the second time |
| Payments.HttpStatus | property_backend/src/modules/admin/payment.controller.js:136-138 | a missing invoice id or an amount that is NaN or not positive answers 400; every other failure 500 (lines 229-231) |
| Payments.RentIncomeAccount | property_backend/src/modules/admin/payment.controller.js:184-196 | the ledger row is booked to a "Rent Income" account; an existing one is reused and the accounts are unchanged; only when none exists is one created, under a fresh key |
| Payments.RecordPayment | property_backend/src/modules/admin/payment.controller.js:131-233 | the method's answer and payments, invoices, accounts and ledger are those of the specification |
| Payments.ProcessPayment | src/modules/tenant/tenant.payment.controller.js:4-112 | the method's answer and tables are those of the tenant handler's specification |
| Payments.SettleInvoice | property_backend/src/modules/admin/payment.controller.js:140-218 | the transaction's writes, in order, equal the settling function shared by both handlers |
| Payments.EnsureRentAccount | property_backend/src/modules/admin/payment.controller.js:184-196 | the account writes equal the account function |
| Payments.AppliedArithmetic | property_backend/src/modules/admin/payment.controller.js:161-180 | newPaid = oldPaid + pay; status is "paid" exactly when amount − newPaid ≤ 0, and then balanceDue is 0 and paidAt is today; otherwise "partial", balanceDue = amount − newPaid > 0 and paidAt is kept |
| Payments.PaymentsCompose | property_backend/src/modules/admin/payment.controller.js:161-180 | paying a and then b leaves the invoice as paying a + b at once would |
| Payments.RefusalsWriteNothing | src/modules/tenant/tenant.payment.controller.js:10-25 | both handlers refuse exactly a missing id, a NaN or non-positive amount, or an unknown invoice, and the tenant's handler also any invoice not addressed to the requesting user; a refusal writes nothing |
| Payments.SameArithmetic | src/modules/tenant/tenant.payment.controller.js:27-94 | on the tenant's own invoice both handlers write the same invoice and account; the payment rows differ only in the default method and the ledger rows only in their description |
| Payments.RecordedPayment | property_backend/src/modules/admin/payment.controller.js:150-215 | one new payment row for the invoice and the positive amount; the invoice paid as above; one Income row whose balance is the previous row's (0 on an empty ledger) plus the amount, booked to "Rent Income"; no other invoice and no earlier row changes |
| Payments.PaymentsAccumulate | property_backend/src/modules/admin/payment.controller.js:184-209 | two payments in a row continue the running balance by their sum, leave the invoice as one payment of the sum, and never create a second "Rent Income" account |
| Refunds.HttpStatus | src/modules/admin/refund.controller.js:90-93 | every failure answers 500 |
| Refunds.CreateRefundSpec | src/modules/admin/refund.controller.js:37-94 | a refused refund writes nothing; the insert is refused when a field is missing or the id minted from the count is already in use (requestId is the unique key of lines 103 and 123) |
| Refunds.CreateRefund | src/modules/admin/refund.controller.js:37-94 | the method's answer and refunds, messages and ledger are those of the specification, the unique-key refusal included |
| Refunds.StoreRefund | src/modules/admin/refund.controller.js:47-84 | the refund, its deposit notice and its ledger row are written as the specification stores them |
| Refunds.RefundNumbering | src/modules/admin/refund.controller.js:42-43 | every create keeps the request ids pairwise distinct; on refunds numbered "RA-" + (index + 1) it keeps the numbering and fails only on a missing field; a new id is "RA-" and at least five digits whose value is the new count |
| Refunds.CreatedRefund | src/modules/admin/refund.controller.js:41-57 | a create fails exactly when a field is missing or the count's id is in use, and then adds no refund; otherwise it appends one refund carrying the count's id, which was not in use |
| Refunds.RefundLedger | src/modules/admin/refund.controller.js:45-84 | a refund is refused, with nothing written, exactly when its type, reason or an id is missing or the id minted from the count is already in use; otherwise it stores the amount (0 when NaN) with status given or "Completed", and one ledger row continues the balance downwards by the amount, a Liability exactly when the type mentions a deposit and an Expense otherwise |
| Refunds.DepositNotice | src/modules/admin/refund.controller.js:60-69 | the tenant gets a message exactly when the type or the reason mentions a deposit, from the sender or user 1, stating the type, amount and reason |
| Refunds.AsWrittenDeletionStallsCreate | src/modules/admin/refund.controller.js:42-47 | the as-written half of the fifth Findings row: after deleting any numbered refund but the newest, the ids are still distinct, yet every complete request is refused and nothing changes, while the corrected rule stores it |
| Refunds.FreeNumber | src/modules/admin/refund.controller.js:42-43 | the corrected numbering: the first number from the count on whose "RA-" id is not in use |
| Refunds.CorrectedCreateRefundSpec | src/modules/admin/refund.controller.js:37-94 | the corrected create: refused, writing nothing, exactly when a field is missing; otherwise stored under a free id |
| Refunds.CorrectedCreateRefund | src/modules/admin/refund.controller.js:37-94 | the method is proved equal to the corrected specification |
| Refunds.CorrectedIdsStayDistinct | src/modules/admin/refund.controller.js:42-57 | the corrected half: every complete request is stored under an id not in use, the ids stay distinct, and where the count's id is free it does what the handler does |
| Accounting.CreateTransactionSpec | property_backend/src/modules/admin/accounting.controller.js:29-56 | the insert fails exactly when the date or the amount does not parse, and then nothing is written; otherwise exactly one row is appended |
| Accounting.CreateTransaction | property_backend/src/modules/admin/accounting.controller.js:29-56 | the method's answer and ledger are those of the specification |
| Accounting.RecordedTransaction | property_backend/src/modules/admin/accounting.controller.js:33-48 | the row carries the request's date, description, type and parsed amount, the status given or "Paid", and the previous balance (0 on an empty ledger) plus the amount |
| Accounting.BalanceAccumulates | property_backend/src/modules/admin/accounting.controller.js:33-48 | after a series of requests the running balance is the one before plus the sum of the accepted amounts; each accepted request appends one row and no earlier row changes |
| Accounting.StampOrder | property_backend/src/modules/admin/accounting.controller.js:7 | the day stamp orders dates as the calendar does |
| Accounting.InsertByDate | property_backend/src/modules/admin/accounting.controller.js:7 | inserting into a newest-first listing keeps it newest first and adds exactly that row |
| Accounting.ByDateDescending | property_backend/src/modules/admin/accounting.controller.js:7 | the sorted ledger is newest first and a permutation of the ledger |
| Accounting.RecentIsNewest | property_backend/src/modules/admin/accounting.controller.js:6-9 | the listing holds min(50, n) rows of the ledger, newest first, and no row left out is newer than a row listed |
| UnitController.HttpStatus | property_backend/src/modules/admin/unit.controller.js:92-100 | a missing building or unit answers 404, a thrown write 500, and other refusals 400 |
| UnitController.PageWindow | property_backend/src/modules/admin/unit.controller.js:6-8 | page and limit default to 1 and 10 when absent, unparsable or zero, so neither is ever 0; skip = (page − 1) × limit |
| UnitController.PagesTile | property_backend/src/modules/admin/unit.controller.js:6-8 | with a positive limit consecutive pages follow one another without gap or overlap, every unit lies on exactly one page between 1 and totalPages = ceil(total/limit) (line 77), and the page after the last starts past the end |
| UnitController.CreateMode | property_backend/src/modules/admin/unit.controller.js:102-108 | 3, "3", "Bedroom-wise" or "BEDROOM_WISE" give BEDROOM_WISE; anything else FULL_UNIT |
| UnitController.UpdateMode | property_backend/src/modules/admin/unit.controller.js:291-297 | on update the two spellings of each mode are recognised and anything else keeps the unit's mode |
| UnitController.NewBedroomCount | property_backend/src/modules/admin/unit.controller.js:111 | the count given when it parses to a non-zero number, else 3 for BEDROOM_WISE and 1 otherwise |
| UnitController.BedroomNamesDistinct | property_backend/src/modules/admin/unit.controller.js:150-156 | without custom identifiers, different positions give different bedroom names |
| UnitController.FreshBedrooms | property_backend/src/modules/admin/unit.controller.js:141-169 | one insert of exactly count new rows: position i is named civic-unit-(i+1) or its custom identifier, numbered i + 1, Vacant |
| UnitController.CreateUnitSpec | property_backend/src/modules/admin/unit.controller.js:88-190 | a refused create writes nothing |
| UnitController.CreateUnit | property_backend/src/modules/admin/unit.controller.js:88-190 | the method's answer, units and bedrooms are those of the specification |
| UnitController.CreatedUnitBedrooms | property_backend/src/modules/admin/unit.controller.js:126-169 | the new unit is Vacant with the normalised mode and count, its bedrooms are exactly the new rows, Vacant and numbered 1 to n, and no earlier unit or bedroom changes |
| UnitController.EditedUnit | property_backend/src/modules/admin/unit.controller.js:311-326 | each given field replaces the stored one and each absent or empty one keeps it; a zero or unparsable count keeps the old count |
| UnitController.Names | property_backend/src/modules/admin/unit.controller.js:337-344 | the names of positions 0 to n − 1, one per position |
| UnitController.SyncStep | property_backend/src/modules/admin/unit.controller.js:346-364 | one step of the loop keeps every bedroom row id |
| UnitController.SyncUpTo | property_backend/src/modules/admin/unit.controller.js:337-365 | the first k steps keep every bedroom row id |
| UnitController.UpdateUnitSpec | property_backend/src/modules/admin/unit.controller.js:277-399 | a refused edit writes nothing |
| UnitController.UpdateUnit | property_backend/src/modules/admin/unit.controller.js:277-399 | the method's answer, units and bedrooms are those of the specification |
| UnitController.ResyncBedrooms | property_backend/src/modules/admin/unit.controller.js:328-379 | the bedroom writes equal the resynchronisation function |
| UnitController.SyncBedrooms | property_backend/src/modules/admin/unit.controller.js:337-365 | the for loop over positions leaves the bedrooms of the first n steps |
| UnitController.DeleteExcess | property_backend/src/modules/admin/unit.controller.js:367-378 | the excess bedrooms are deleted together, or all kept when one is in use |
| UnitController.SyncKeys | property_backend/src/modules/admin/unit.controller.js:337-365 | after k steps the ids are the existing ones plus a run of new ones from the next free id, one per bedroom created |
| UnitController.SyncRenames | property_backend/src/modules/admin/unit.controller.js:346-353 | once step i has run, the i-th existing bedroom carries the name of position i |
| UnitController.SyncOthers | property_backend/src/modules/admin/unit.controller.js:337-365 | a bedroom not in the unit's list is never touched by the loop |
| UnitController.SyncCreates | property_backend/src/modules/admin/unit.controller.js:354-364 | the j-th bedroom created is the Vacant bedroom of position |existing| + j |
| UnitController.UpdateRenamesBedroom | property_backend/src/modules/admin/unit.controller.js:330-353 | the existing bedrooms up to the count keep their row, unit and status and take the name of their position, renumbered only when the name changes |
| UnitController.UpdateCreatesBedroom | property_backend/src/modules/admin/unit.controller.js:354-364 | the missing bedrooms up to the count are created Vacant, numbered on from the last existing one, with consecutive ids |
| UnitController.UpdatePrunesBedroom | property_backend/src/modules/admin/unit.controller.js:367-378 | the bedrooms past the count are all deleted, or all kept unchanged when one of them is still referred to by a user or a lease |
| UnitController.UpdateKeepsOtherUnits | property_backend/src/modules/admin/unit.controller.js:330-379 | other units' bedrooms are not touched |
| UnitController.RefundsNotOn | property_backend/src/modules/admin/unit.controller.js:522-525 | exactly the refunds not on the unit remain |
| UnitController.DeleteUnitSpec | property_backend/src/modules/admin/unit.controller.js:495-550 | a refused delete writes nothing |
| UnitController.DeleteUnit | property_backend/src/modules/admin/unit.controller.js:495-550 | the method's answer and tables are those of the specification |
| UnitController.DeleteUnitGuard | property_backend/src/modules/admin/unit.controller.js:505-543 | the delete succeeds exactly when the unit exists and has no Active lease; then no invoice, refund, bedroom or lease refers to it and every row of another unit stays |
| UnitController.TakenBedrooms | property_backend/src/modules/admin/unit.controller.js:408-431 | the union of the users' bedrooms and the bedrooms of Active or DRAFT leases, minus includeId |
| UnitController.VacantBedroomsOffer | property_backend/src/modules/admin/unit.controller.js:433-471 | no bedroom a user or an Active or DRAFT lease holds is offered except includeId; for a requested unit (and no building) exactly its untaken bedrooms are offered whatever their status; otherwise an offered bedroom is Vacant or on a unit a company leases |
| TenantController.CleanPhone | property_backend/src/modules/admin/tenant.controller.js:272 | the cleaned phone holds no whitespace, dash or parenthesis |
| TenantController.TenantPhone | property_backend/src/modules/admin/tenant.controller.js:268-285 | a stored phone has at least ten characters; a missing one is refused |
| TenantController.PhoneHasNoSeparators | property_backend/src/modules/admin/tenant.controller.js:272-279 | a stored phone holds no space, dash or parenthesis |
| TenantController.PhoneAccepted | property_backend/src/modules/admin/tenant.controller.js:272-284 | a phone is accepted exactly when at least ten characters remain once separators are removed |
| TenantController.TenDigitPhone | property_backend/src/modules/admin/tenant.controller.js:273-274 | ten digits, however punctuated, are stored as "+1" and the digits |
| TenantController.ElevenDigitPhone | property_backend/src/modules/admin/tenant.controller.js:275-276 | eleven characters starting with 1 are stored with a leading "+" |
| TenantController.PhoneStable | property_backend/src/modules/admin/tenant.controller.js:543-550 | normalising a stored phone again leaves it unchanged, so resubmitting a tenant's phone on edit keeps it |
| TenantController.HttpStatus | property_backend/src/modules/admin/tenant.controller.js:287-308 | 409 exactly for a taken email, 404 for a missing tenant, 500 for a failed delete, 400 for invalid fields or id |
| TenantController.CreateErrors | property_backend/src/modules/admin/tenant.controller.js:252-285 | a field absent from the error set passes its check: names filled, a valid phone, a company name for a company, a responsible party for a resident |
| TenantController.UpdateErrors | property_backend/src/modules/admin/tenant.controller.js:534-554 | a field absent from the error set passes its check: names filled and a valid phone |
| TenantController.Named | property_backend/src/modules/admin/tenant.controller.js:389 | exactly the entries with a first or a last name are kept |
| TenantController.ResidentRows | property_backend/src/modules/admin/tenant.controller.js:387-397 | one row per named entry at consecutive ids from base, each the entry's resident under the tenant |
| TenantController.TrimmedEmail | property_backend/src/modules/admin/tenant.controller.js:351 | a blank email is stored as none, never as an empty string |
| TenantController.CreateTenantSpec | property_backend/src/modules/admin/tenant.controller.js:244-410 | a refused create writes nothing |
| TenantController.CreateTenant | property_backend/src/modules/admin/tenant.controller.js:244-410 | the method's answer and users table are those of the specification |
| TenantController.CreateValidation | property_backend/src/modules/admin/tenant.controller.js:252-309 | a create is refused with 400 exactly when a name or a valid phone is missing, a company lacks its name or a resident its responsible party, each failing field listed; it is refused with 409 exactly when it is otherwise valid and the trimmed email is already taken |
| TenantController.CreatedTenant | property_backend/src/modules/admin/tenant.controller.js:342-371 | the tenant takes a fresh id and the normalised phone, no existing user changes; a resident has no lease and no invite, anyone else the request's lease and an invite that expires after today |
| TenantController.CreateShape | property_backend/src/modules/admin/tenant.controller.js:297-400 | an accepted create passes every field check, answers the next free id and writes the tenant then its residents |
| TenantController.ResidentInheritsPlace | property_backend/src/modules/admin/tenant.controller.js:318-340 | a resident takes each of building, unit and bedroom it was not given from its existing responsible party, and keeps the ones given |
| TenantController.CreatedResidentRows | property_backend/src/modules/admin/tenant.controller.js:386-398 | the new ids are the tenant's and one per named resident entry; each resident is under the new tenant with no lease; a resident tenant gets none |
| TenantController.FirstLease | property_backend/src/modules/admin/tenant.controller.js:420-422 | none exactly when the tenant has no lease in the statuses, else the lowest such id |
| TenantController.Household | property_backend/src/modules/admin/tenant.controller.js:454 | the tenant and exactly its residents |
| TenantController.RefundsWithout | property_backend/src/modules/admin/tenant.controller.js:452-464 | exactly the refunds of other tenants remain |
| TenantController.MessagesWithout | property_backend/src/modules/admin/tenant.controller.js:469-484 | exactly the messages neither sent nor received by the household remain |
| TenantController.LogsWithout | property_backend/src/modules/admin/tenant.controller.js:470-475 | exactly the logs not addressed to the household remain |
| TenantController.Purge | property_backend/src/modules/admin/tenant.controller.js:438-510 | the cleanup never touches units or bedrooms |
| TenantController.DeleteTenantSpec | property_backend/src/modules/admin/tenant.controller.js:414-518 | a failed delete answers 500 and writes nothing |
| TenantController.FreeUnit | property_backend/src/modules/admin/tenant.controller.js:424-436 | only bedrooms and units change |
| TenantController.DeleteTenant | property_backend/src/modules/admin/tenant.controller.js:414-518 | the method's answer and tables are those of the specification |
| TenantController.RemoveHousehold | property_backend/src/modules/admin/tenant.controller.js:438-510 | the deletes, in the handler's order, leave the purged tables |
| TenantController.DeleteTenantFreesUnit | property_backend/src/modules/admin/tenant.controller.js:416-436 | a delete fails exactly when the id does not parse, the tenant is missing or its first open lease's unit is gone; otherwise that unit and all its bedrooms are Vacant and no other unit changes, or nothing changes status when there is no Active or DRAFT lease |
| TenantController.DeleteTenantRemovesHousehold | property_backend/src/modules/admin/tenant.controller.js:438-510 | no user, lease, invoice, payment, ledger row, refund, insurance, message or log refers to the tenant or its residents afterwards, and every unrelated user, lease, invoice, refund and message stays |
| TenantController.PurgePeople | property_backend/src/modules/admin/tenant.controller.js:439-473 | the tenant, its residents and their leases go; other users and leases stay unchanged |
| TenantController.PurgeBilling | property_backend/src/modules/admin/tenant.controller.js:445-464 | the household's invoices, their payments and ledger rows, and its refunds go; other invoices and refunds stay |
| TenantController.PurgeCorrespondence | property_backend/src/modules/admin/tenant.controller.js:440-484 | the household's insurances, messages and logs go; other messages stay |
| TenantController.ReplaceResidents | property_backend/src/modules/admin/tenant.controller.js:642-671 | the residents sync never touches leases |
| TenantController.UpdateTenantWith | property_backend/src/modules/admin/tenant.controller.js:521-745 | a refused edit writes nothing |
| TenantController.UpdateTenantSpec | property_backend/src/modules/admin/tenant.controller.js:521-745 | a refused edit writes nothing |
| TenantController.CorrectedUpdateSpec | property_backend/src/modules/admin/tenant.controller.js:702-737 | a refused edit writes nothing |
| TenantController.UpdateTenant | property_backend/src/modules/admin/tenant.controller.js:521-745 | the method's answer and tables are those of the handler as written |
| TenantController.CorrectedUpdateTenant | property_backend/src/modules/admin/tenant.controller.js:521-745 | the method's answer and tables are those of the corrected handler |
| TenantController.EditTenant | property_backend/src/modules/admin/tenant.controller.js:521-745 | the method's answer and tables are those of the edit with the given move statuses |
| TenantController.ApplyEdit | property_backend/src/modules/admin/tenant.controller.js:565-737 | the writes of an accepted edit, in order |
| TenantController.SyncResidents | property_backend/src/modules/admin/tenant.controller.js:643-671 | the residents sync's writes |
| TenantController.UpdateValidation | property_backend/src/modules/admin/tenant.controller.js:522-580 | an edit is refused with 400 exactly for an unparsable id or invalid fields, then 409 exactly for an email another user has, then 404 exactly for a missing tenant, and is accepted otherwise |
| TenantController.UpdatedTenantRow | property_backend/src/modules/admin/tenant.controller.js:582-626 | the tenant row after an edit takes the normalised phone, the names and type given, the responsible party given and keeps its invite; it survives unless the sync deletes it as its own resident |
| TenantController.KeptEditedRow | property_backend/src/modules/admin/tenant.controller.js:604-658 | the edited row survives exactly unless the residents sync runs and the tenant named itself as its responsible party |
| TenantController.EditedTenantFields | property_backend/src/modules/admin/tenant.controller.js:582-625 | the row's phone, names, type, company name, responsible party and invite; a resident with an existing party inherits the place not given and has no lease, anyone else has the place and lease the request gave |
| TenantController.ReplacedResidents | property_backend/src/modules/admin/tenant.controller.js:642-671 | afterwards every user under the tenant is new, a resident and on the tenant's current lease, one per named entry; every other user is kept |
| TenantController.ReplacedResidentAt | property_backend/src/modules/admin/tenant.controller.js:659-670 | the k-th new resident is the k-th named entry under the tenant on its current lease |
| TenantController.ReplacedResidentsRecords | property_backend/src/modules/admin/tenant.controller.js:648-657 | exactly the old residents' insurances, messages and logs are deleted |
| TenantController.MoveLeaseEffect | property_backend/src/modules/admin/tenant.controller.js:694-737 | only the current lease moves: with none a live lease is created; on the destination it stays; a live one elsewhere is closed with today's date and a new live one created; a DRAFT elsewhere is re-pointed |
| TenantController.MoveLeaseLands | property_backend/src/modules/admin/tenant.controller.js:694-737 | after a move the tenant holds a current lease on the destination unit |
| TenantController.EditMovesLease | property_backend/src/modules/admin/tenant.controller.js:682-738 | an accepted edit of a non-resident with a destination applies the move to the leases; otherwise leases are unchanged |
| TenantController.AsWrittenMoveLeavesUnitUnguarded | property_backend/src/modules/admin/tenant.controller.js:727-736 | as written, a tenant without a current lease moved to an unleased unit gets an 'ACTIVE' lease that the unit's Active guard does not see, so deleteUnit accepts deleting that unit |
| TenantController.CorrectedMoveGuardsUnit | property_backend/src/modules/admin/tenant.controller.js:702-737 | writing Active and Moved, the same move leaves an Active lease on the unit, so deleteUnit refuses it |
| Sms.Digits | property_backend/src/services/sms.service.js:25 | the result is all digits and no longer than the input |
| Sms.SmsNumber | property_backend/src/services/sms.service.js:21-39 | a missing or empty number is handed back; any other result starts with "+" |
| Sms.NationalNumber | property_backend/src/services/sms.service.js:28-35 | ten digits, or eleven starting with 1, however punctuated, become "+1" and the ten-digit national number |
| Sms.OtherNumberKept | property_backend/src/services/sms.service.js:37-38 | any other number is kept as given when it starts with "+", and gets a "+" in front otherwise |
| Sms.SameDigits | property_backend/src/services/sms.service.js:21-39 | the number dialled has the input's digits, with a 1 put in front of a bare ten-digit number |
| Sms.SmsNumberIdempotent | property_backend/src/services/sms.service.js:21-39 | normalising a normalised number changes nothing |
| Sms.Send | property_backend/src/services/sms.service.js:84-100 | without a client no request is made; otherwise the outcome is the provider's reply |
| Sms.SendSms | property_backend/src/services/sms.service.js:47-68 | without a client the send fails as not initialised; otherwise the provider is asked once, with the normalised number |
| Sms.SendBulkSms | property_backend/src/services/sms.service.js:76-109 | one result per recipient in the order given, carrying the recipient as given and the reply to its normalised number; a failure does not stop the run; without a client every result fails |
| InsuranceController.ComplianceOf | property_backend/src/modules/admin/insurance.controller.js:48-63 | Missing exactly when the lease has no policy |
| InsuranceController.ComplianceThresholds | property_backend/src/modules/admin/insurance.controller.js:52-62 | Expired exactly when the policy ended a whole day ago or more, Expiring exactly when it ends within thirty days, Compliant exactly when it runs more than thirty days more |
| InsuranceController.LatestEnd | property_backend/src/modules/admin/insurance.controller.js:34-38 | none exactly when the lease has no ACTIVE policy, else the latest end among them |
| InsuranceController.DashboardCompliance | property_backend/src/modules/admin/insurance.controller.js:27-63 | a lease is Missing exactly when it has no ACTIVE policy, Compliant exactly when one of them runs more than thirty days more, Expired exactly when every one ended a day ago or more |
| InsuranceController.ExpiryOf | property_backend/src/modules/admin/insurance.controller.js:161-170 | the label carries the whole days remaining, rounded up |
| InsuranceController.LabelMatchesCompliance | property_backend/src/modules/admin/insurance.controller.js:161-170 | the alert list's "Expired", "Expiring Soon" and "Active" labels are exactly the dashboard's Expired, Expiring and Compliant |
| InsuranceController.StatsPartition | property_backend/src/modules/admin/insurance.controller.js:250-258 | every ACTIVE policy is counted exactly once among active, expiring and expired |
| InsuranceController.StatsAgainstDashboard | property_backend/src/modules/admin/insurance.controller.js:250-258 | the counts and the dashboard agree on what is compliant; they differ on expiry exactly for a policy that ended less than a day ago, which the counts call expired and the dashboard Expiring |
| InsuranceController.Notification | property_backend/src/services/communicationService.js:12-35 | at most one log row, addressed to the user about the policy and event |
| InsuranceController.AlertLog | property_backend/src/modules/admin/insurance.controller.js:118-128 | the job's own row is addressed to the policy's user about the policy and the threshold's event |
| InsuranceController.CheckInsuranceExpirations | property_backend/src/modules/admin/insurance.controller.js:87-135 | the log the loop over the watched policies leaves is the job's specification |
| InsuranceController.AlertPolicy | property_backend/src/modules/admin/insurance.controller.js:98-130 | one policy's turn of the loop, stopping the run when its user is missing |
| InsuranceController.AlertsExtend | property_backend/src/modules/admin/insurance.controller.js:98-131 | the job only appends to the log |
| InsuranceController.AlertOneAbout | property_backend/src/modules/admin/insurance.controller.js:99-129 | what one policy's turn appends is an alert about that policy at its threshold |
| InsuranceController.AlertsOnlyAtThresholds | property_backend/src/modules/admin/insurance.controller.js:90-130 | the job only appends, and everything it appends is an alert for a policy exactly 30, 14 or 7 days from its end |
| InsuranceController.LoggedKept | property_backend/src/modules/admin/insurance.controller.js:105-112 | a logged alert stays logged when rows are appended |
| InsuranceController.AlertsLogged | property_backend/src/modules/admin/insurance.controller.js:98-131 | when the job runs through, every policy 30, 14 or 7 days from its end has its alert logged |
| InsuranceController.NothingResent | property_backend/src/modules/admin/insurance.controller.js:102-114 | with every due alert already logged the job writes nothing |
| InsuranceController.AlertsNotResent | property_backend/src/modules/admin/insurance.controller.js:102-130 | a second run on the same day leaves the log as the first run left it |
| InsuranceController.HttpStatus | property_backend/src/modules/admin/insurance.controller.js:214-244 | a missing reason is 400 and every other failure 500 |
| InsuranceController.ApproveSpec | property_backend/src/modules/admin/insurance.controller.js:200-218 | a failed approval writes nothing |
| InsuranceController.RejectSpec | property_backend/src/modules/admin/insurance.controller.js:221-245 | a failed rejection writes nothing |
| InsuranceController.ApproveInsurance | property_backend/src/modules/admin/insurance.controller.js:200-218 | the method's answer, policies and log are those of the specification |
| InsuranceController.RejectInsurance | property_backend/src/modules/admin/insurance.controller.js:221-245 | the method's answer, policies and log are those of the specification |
| InsuranceController.ReviewEffects | property_backend/src/modules/admin/insurance.controller.js:200-245 | a rejection is refused exactly without a reason and succeeds exactly for an existing policy, storing REJECTED and the reason; an approval succeeds exactly for an existing policy, storing ACTIVE and clearing the reason; either changes only that policy and logs at most one notification |
| InsuranceController.ApprovalAfterRejection | property_backend/src/modules/admin/insurance.controller.js:203-233 | approving a rejected policy gives the same policy row as approving it directly |
| AdminController.OrNull | src/modules/admin/admin.controller.js:316-320 | a part is stored exactly when it is a non-empty string, and then as given |
| AdminController.Supplied | src/modules/admin/admin.controller.js:378-382 | a part left out keeps the stored value, null clears it, a string replaces it |
| AdminController.NewAddress | src/modules/admin/admin.controller.js:301-307 | a new building's address is never empty |
| AdminController.ComposedAddress | src/modules/admin/admin.controller.js:301-307 | with civic number and street the address starts with "civic street", ends with " postal" when a postal code is given, and ignores the free-text address |
| AdminController.EditAddressRule | src/modules/admin/admin.controller.js:366-372 | an edit keeps the stored address unless it brings both civic number and street, and then composes it as a create would |
| AdminController.CreatePropertySpec | src/modules/admin/admin.controller.js:296-348 | the building is added under a fresh id and no other building changes |
| AdminController.CreateProperty | src/modules/admin/admin.controller.js:296-348 | the method's id and buildings are those of the specification |
| AdminController.CreatedProperty | src/modules/admin/admin.controller.js:298-320 | the building stores the name and status given, each address part exactly when it was given non-empty, the composed address when civic number and street are given, else "Not Provided" without a free-text address |
| AdminController.HttpStatus | src/modules/admin/admin.controller.js:361-363 | 404 exactly for a missing building, 500 exactly for a thrown error |
| AdminController.UpdatePropertySpec | src/modules/admin/admin.controller.js:350-423 | a failed edit writes nothing |
| AdminController.UpdateProperty | src/modules/admin/admin.controller.js:350-423 | the method's answer and buildings are those of the specification |
| AdminController.UpdatedProperty | src/modules/admin/admin.controller.js:355-395 | an edit of an existing building succeeds, changes no other building, keeps the address unless civic number and street both come, and changes nothing when it leaves everything out |
| AdminController.OccupancyRate | src/modules/admin/admin.controller.js:260-262 | 0 without units; otherwise the percentage of occupied units rounded to the nearest whole number, halves up |
| AdminController.RateBounds | src/modules/admin/admin.controller.js:202-204 | the rate lies between 0 and 100, is 0 when nothing is occupied and 100 when everything is |
| AdminController.RateMonotone | src/modules/admin/admin.controller.js:260-262 | more occupied units never lower the rate |
| AdminController.NotVacant | src/modules/admin/admin.controller.js:203 | the occupied units are among the building's units |
| AdminController.AsWrittenFullyBookedCountsVacant | src/modules/admin/admin.controller.js:46-53 | as written, one Fully Booked unit counts on the dashboard as one vacant and no occupied unit, while its property page shows it 100% occupied |
| AdminController.CorrectedDashboardCounts | src/modules/admin/admin.controller.js:202-204 | counting as the property pages do, the dashboard's vacant units are exactly the Vacant ones, occupied and vacant add up to the total, and the rate matches the property page's |
| AdminController.RefundsOffUnits | src/modules/admin/admin.controller.js:512-515 | exactly the refunds of other units remain |
| AdminController.UnlinkAll | src/modules/admin/admin.controller.js:532-545 | every user is kept, each with its references into the building cleared |
| AdminController.Stages | src/modules/admin/admin.controller.js:472-571 | the eleven states of the transaction, starting from the database before it |
| AdminController.DeletePropertySpec | src/modules/admin/admin.controller.js:425-581 | a failure, a missing building included, answers 500 and writes nothing |
| AdminController.DeleteProperty | src/modules/admin/admin.controller.js:425-581 | the method's answer and tables are those of the specification |
| AdminController.ScopeClosed | src/modules/admin/admin.controller.js:432-467 | whatever refers to a row the delete removes is itself in the gathered scope |
| AdminController.FrontStagesIntact | src/modules/admin/admin.controller.js:473-530 | ledger rows, payments, policies and refunds go before the invoices they refer to, and each step leaves no dangling reference |
| AdminController.MiddleStagesIntact | src/modules/admin/admin.controller.js:532-555 | users are unlinked before the leases go and the leases before the bedrooms, each step leaving no dangling reference |
| AdminController.BackStagesIntact | src/modules/admin/admin.controller.js:562-570 | the units go once nothing refers to them, then the building, without a dangling reference |
| AdminController.DeletionOrderKeepsIntegrity | src/modules/admin/admin.controller.js:471-571 | on an intact database every intermediate state of the transaction is intact, so no step would hit a foreign key |
| AdminController.FinalStage | src/modules/admin/admin.controller.js:472-571 | the state after the transaction, table by table: each table loses exactly the building's rows, and users lose their links into it |
| AdminController.DeletedProperty | src/modules/admin/admin.controller.js:425-574 | afterwards the building and its units are gone and nothing refers to them; exactly the other buildings' units, and the bedrooms and leases of the remaining units, remain, untouched; every user is kept |
| AdminController.DeletedPropertyBilling | src/modules/admin/admin.controller.js:473-530 | exactly the invoices and payments outside the building remain, untouched; the ledger, policies and refunds lose exactly the building's rows; users keep everything but their links into it |
| Seed.DigitOf | prisma/seed.js:33 | a parsed digit is below ten |
| Seed.FirstChar | prisma/seed.js:33 | at most one character |
| Seed.LastChar | prisma/seed.js:42 | at most one character |
| Seed.Floor | prisma/seed.js:29-36 | a floor read from the number is a single digit |
| Seed.UnitType | prisma/seed.js:39-48 | a type given is always one of the five seed types |
| Seed.BedroomsCount | prisma/seed.js:51-60 | between one and three bedrooms, three for a missing or unknown type |
| Seed.SeedBedrooms | prisma/seed.js:144-150 | exactly count bedrooms, the i-th on the unit, numbered i + 1 and Vacant |
| Seed.SeedBedroomNames | prisma/seed.js:144-150 | each bedroom is named after its unit's number, a dash and its room number, and different bedrooms have different names |
| Seed.BuildingUnits | prisma/seed.js:7-22 | eight units per building |
| Seed.Buildings | prisma/seed.js:6-23 | sixteen buildings |
| Seed.ReadUnitNumber | prisma/seed.js:29-48 | for a number of the seed's form the floor is its first digit after the dash; a number ending in 1 is a Mackenzie, in 2 a Nelson, and any other takes the type at its floor modulo five |
| Seed.SeedUnitsAreThreeBedroom | prisma/seed.js:6-60 | every seeded unit is a Mackenzie or a Nelson on floors 1 to 4 with three bedrooms, so the floor-based fallback never applies |
| UnitTypeConfig.IsValidUnitType | property_backend/src/config/unitTypes.js:23-26 | a missing or empty type passes; any other passes exactly when it is one of the configured names |
| UnitTypeConfig.GetValidUnitTypes | property_backend/src/config/unitTypes.js:32-34 | a new array holding the configured names in order, so writing to it cannot change the configuration |
| Communication.Placeholder | property_backend/src/services/communication.service.js:61 | a placeholder is non-empty and starts with a brace |
| Communication.SendNotificationSpec | property_backend/src/services/communication.service.js:43-88 | an unknown template key fails exactly and logs nothing; otherwise exactly one row is appended, marked Sent, with the template key as its event and the channel given or 'Email' |
| Communication.SendNotification | property_backend/src/services/communication.service.js:52-83 | the loop substituting each variable in turn, and the row logged, give the specification's result |
| Communication.FillAbsent | property_backend/src/services/communication.service.js:60-64 | text in which no supplied variable's placeholder occurs comes out unchanged, so placeholders without a variable stay in place |
| Communication.PlainText | property_backend/src/services/communication.service.js:60-64 | a text without a brace is unchanged by any variables |
| Communication.FillOne | property_backend/src/services/communication.service.js:60-64 | one placeholder gets the variable's value in its place, or nothing when the value is falsy |
| Documents.EntityType | property_backend/src/services/document.service.js:19 | TENANT exactly when a user is given, else PROPERTY exactly when a building is, else LEASE, else UNIT, else DOC |
| Documents.Dashed | property_backend/src/services/document.service.js:20 | no whitespace remains and the text never grows |
| Documents.DashedPlain | property_backend/src/services/document.service.js:20 | a type without whitespace is kept as it is |
| Documents.DashedIdempotent | property_backend/src/services/document.service.js:20 | cleaning twice changes nothing more |
| Documents.CleanType | property_backend/src/services/document.service.js:20 | the cleaned type holds no whitespace |
| Documents.CreateDocumentSpec | property_backend/src/services/document.service.js:7-43 | a document without a type fails and writes nothing; otherwise exactly one row with the type given is appended |
| Documents.CreateDocument | property_backend/src/services/document.service.js:7-43 | the method's answer and rows are those of the specification |
| Documents.IsoDateWidth | property_backend/src/services/document.service.js:18 | a date with a four-digit year is ten characters |
| Documents.ReadBack | property_backend/src/services/document.service.js:23 | an entity without a dash, a type and a ten-character date are read back from the name |
| Documents.EntityWithoutDash | property_backend/src/services/document.service.js:19 | no entity name holds a dash |
| Documents.DocNameRoundTrip | property_backend/src/services/document.service.js:18-23 | a generated name gives back its entity, its cleaned type and its date |
| Documents.Listing | property_backend/src/services/document.service.js:48-68 | exactly the rows the viewer may see are listed |
| Documents.ListingNewestFirst | property_backend/src/services/document.service.js:67 | rows created in order are listed newest first |
| Documents.ListingByRole | property_backend/src/services/document.service.js:49-57 | a tenant sees exactly its own documents, an owner exactly those of its buildings, an admin every one |

## Left out

- JavaScript floating point: amounts are integer cents. Pro-ration rounds half-up on the exact rational value, so a tie that `Math.round` would break differently on a float is not modelled.
- `parseInt` returning NaN for a malformed id: an id that does not parse is treated like an absent one.
- Clocks: "today" and "now" are parameters. Daylight-saving and time-zone day boundaries in the insurance day counts are not modelled.
- RentBatch.Runnable: both rent runs compare stored dates (midnights) with a clock taken after midnight of the run day, so a lease ending that day is not selected; a run started at exactly 00:00:00.000 would still select it, and that instant is not modelled.
- node-cron scheduling: only the bodies of the scheduled jobs are modelled.
- Locale month labels in invoice and batch descriptions: the month is kept as a number.
- Express routing, authentication, e-mail, the SMS provider, the 1-second SMS throttle and Cloudinary uploads: the provider's answer is a parameter where a handler depends on it.
- Random invite tokens are a parameter. Passwords and bcrypt hashing are left out.
- `findFirst` without `orderBy` is taken to return the row with the lowest id.
- Foreign keys are not enforced. The one exception is pruning the excess bedrooms of a unit: the `deleteMany` fails as a whole when a user or lease references one of them, and the handler's catch keeps all of them.
- The expiry sweeps have no per-lease rollback: the writes made for a lease before one of its lookups fails stay in place, as in the source.
- Prisma's P2025 "record not found" error is modelled as the 404 the error middleware sends. Since foreign keys are not enforced, activating a lease whose tenant names a bedroom that does not exist reaches the bedroom update and answers 404; with a foreign key on the lease's bedroom the lease update would fail first with P2003, answered 400.
- Tenant company contacts, documents, tickets, refresh tokens, QuickBooks ids, address fields and company details are left out. A null e-mail is stored as the empty string. A lease created by the tenant handlers gets fixed defaults: whole unit, no dates, rent 0, deposit 0.
- Dashboard owner filters and revenue figures are left out, and so is connecting or setting a property's owners.
- A null name or status in property edits is not modelled. A civic number that arrives in JSON as a number is not modelled.
- When deleting a property, its documents, tickets and maintenance tasks are not modelled. `User.buildingId` and `RentRunLog.leaseId` are not treated as references.
- Communication templates: regular-expression metacharacters in placeholder keys and `$` patterns in replacement strings are not modelled. The key order of a JavaScript object is taken as the order of the sequence. A null related entity is stored as the empty string.
- Text.IsSpace, Text.Lower and Text.Upper are ASCII only: JavaScript's `trim`, `\s`, `toLowerCase` and `toUpperCase` also act on other Unicode spaces and letters. This affects trimmed tenant names and e-mails, `Documents.Dashed`, the refunds' "deposit" test, the invoice "paid" test and the tenant type's upper-casing.
- Keys.FreshKey is the largest id plus one, so it reuses the id of a deleted newest row; a database autoincrement never reuses an id. Where an id is only compared with the rows present, the two agree.
- UnitController.VacantBedrooms returns a set: the `orderBy` of getVacantBedrooms, and so the order of the list it returns, is not modelled.
- Documents: upper-casing is ASCII only, and a null user id in the tenant filter is not modelled. `createdAt` order is taken as creation order. Documents live in their own class, `Documents.DocumentTable`, not in `Store.Database`.
- Seed: `main()` is left out (upserts, bcrypt, console output). Only its pure helpers are modelled.
- Insurance: the dashboard's lease filters (property, owner, status) and the swallowing of notification failures are left out.
- Unit types: mutation of the exported array is not modelled; `GetValidUnitTypes` returns a fresh copy.
- Analytics, owner and report dashboards, tax, the document controller, and the tenant-side insurance expiry label are not part of this model. The expiry label repeats the insurance thresholds already modelled.

## Findings

| source | as written | input that shows it | evidently intended | confidence | as-written member | corrected member |
|---|---|---|---|---|---|---|
| property_backend/src/services/cron.service.js:63-68 | the expiry sweep marks the unit Vacant when no other Active or DRAFT lease holds it, but leaves the expired lease's bedroom Occupied | a unit whose only lease is an Active bedroom lease that has passed its end date | the bedroom of an expired bedroom lease becomes Vacant together with the unit, as the sweep in `src/services/cron.service.js` does | not executed | UnitOnlyExpiry.VacantUnitOverOccupiedBedroom | UnitOnlyExpiry.MainSweepFreesBedroom |
| property_backend/src/modules/admin/tenant.controller.js:702-737 | moving a tenant writes the lease statuses 'ACTIVE' and 'MOVED', but every other handler reads 'Active' and 'Moved' | a tenant with no current lease is moved to a unit that no Active lease holds | the new lease is 'Active', so the unit it holds is guarded against deletion and double booking | not executed | TenantController.AsWrittenMoveLeavesUnitUnguarded | TenantController.CorrectedMoveGuardsUnit |
| src/modules/admin/invoice.controller.js:209-239 | marking an invoice paid writes a "Manual Invoice Paid" income row before the check that refuses rent and service fees on one invoice | an unpaid draft invoice of 1000.00 edited with status "paid", rent 1000.00 and service fees 50.00 | a refused edit (answered 400) writes nothing to the ledger | not executed | InvoiceController.RefusedEditLeavesIncomeRow | InvoiceController.CheckedRefusalWritesNothing |
| src/modules/admin/admin.controller.js:46-53 | the dashboard counts every unit that is not Occupied as vacant, while the property page (lines 202-204) counts every unit that is not Vacant as occupied | a single unit whose status is Fully Booked | both views count a Fully Booked unit as occupied | not executed | AdminController.AsWrittenFullyBookedCountsVacant | AdminController.CorrectedDashboardCounts |
| src/modules/admin/refund.controller.js:42-47 | the request id is "RA-" and the row count + 1, so after a refund other than the newest is deleted (with its unit, tenant or building), the next id is one already in use: the insert on the unique requestId throws and every later create answers 500 | refunds RA-00001 and RA-00002; RA-00001 is deleted with its unit; then a complete refund request (count 1 mints RA-00002 again) | each refund gets a request id not already in use | not executed | Refunds.AsWrittenDeletionStallsCreate | Refunds.CorrectedIdsStayDistinct |
