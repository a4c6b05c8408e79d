# Hospital front desk: a verified model of its core

The application is a hospital front desk built as a single-page React app. A
receptionist registers a patient. The cashier takes the consultation fee. A doctor
calls the patient in, writes a medical record and an optional prescription, and
either discharges or hospitalizes the patient. Statistics screens summarise the
ledger and the census.

This project models the data logic under the screens. It does not model the
markup.

- `Types` (`types.dfy`): the records and their closed enumerations.
- `Departments` (`departments.dfy`): the fixed department catalog, its lookups, and
  the smaller label tables that several screens carry their own copies of.
- `Workflow` (`workflow.dfy`): the top-level store.
  - It is a class `FrontDesk` with the `patients` and `payments` collections and
    the consultation selection.
  - It has one method per event handler, and the three derived queues.
  - As in the application, no handler checks the patient's current status.
- `Queue` (`queue.dfy`): the cashier's and the doctor's queues.
  - the stable priority-then-arrival sort, performed in place on an array;
  - the per-patient payment-method choice and the payment it builds;
  - the department filter, the 1-based numbering and the waiting-time arithmetic.
- `Registration` (`registration.dfy`): the registration form as a class.
  - the contact editors;
  - the comma-list splitter;
  - the price lookup;
  - the `PAT` + last six digits QR code;
  - the patient built on submit.
- `Medications` (`medications.dfy`): the medication list editor that both
  consultation screens have, plus the common-medication suggestions.
- `Consultation` (`consultation.dfy`): what the two consultation screens build on
  submit: the record, the prescription and the updated patient.
- `LabResults` (`lab_results.dfy`): the lab-result form as a class, with its
  templates.
- `DailySummary` (`daily_summary.dfy`): the cashier's day view.
  - the per-method totals;
  - the per-department tally, kept in insertion order as JavaScript objects keep
    their keys;
  - the ten most recent payments.
- `HospitalStats` (`hospital_stats.dfy`): the management statistics.
  - the period filter, the department table and the revenue attribution;
  - the revenue ranking and the per-method shares.
- `PatientsOverview`, `ConsultationMenu`, `DepartmentManagement`,
  `HospitalizedView`, `PatientList`, `PatientDetail`, `QrScanner`: the search,
  filter, sort, count and label logic of the remaining screens.
- `Seqs`, `Sorting` and `Text` hold the JavaScript built-ins the core relies on.
  - `Seqs` has `filter`, `find`, `map`, `slice`, `splice` and `reduce` sums.
  - `Sorting` has a stable sort: a functional specification `SortBy` and an
    in-place insertion sort proved equal to it.
  - `Text` has `trim`, `split`, `join`, `includes`, `startsWith`, `slice(-n)` and
    number rendering.

External inputs are parameters:

- The clock is a millisecond count `nowMs`.
- `new Date(s).getTime()` is a function `timeOf: string -> int`.
- `toISOString()` is `iso: int -> string`.
- `toLowerCase` is `lower: string -> string`.
- The local-time boundaries (start of day, start of month, "same day") are given
  by the caller.

## Model

| member | source | states |
|---|---|---|
| Types.ParseStatus | types/index.ts:19 | a recognised key names the status whose key it is |
| Types.ParseStatusKey | types/index.ts:19 | the six status keys name the six statuses one-to-one, so the status is exactly one of them |
| Types.LabelOr | components/hr/patients-overview.tsx:88-111 | `labels[key] \|\| key`: the table's label when the key is listed, otherwise the key itself |
| Departments.GetDepartmentById | config/departments.ts:87-89 | no result exactly when no catalog entry has the id; otherwise a catalog entry carrying that id |
| Departments.DepartmentName | config/departments.ts:91-94 | the found entry's name, or the id unchanged when there is no entry |
| Departments.DepartmentColor | config/departments.ts:96-99 | the found entry's color, or `#4A90E2` when there is no entry |
| Departments.CatalogIdsDistinct | config/departments.ts:3-85 | the nine catalog ids are pairwise distinct |
| Departments.LookupUnique | config/departments.ts:3-89 | looking up the id of entry i finds entry i itself |
| Departments.CatalogPrices | config/departments.ts:3-85 | every consultation price is positive and at most 120 |
| Departments.EmergencyPrice | config/departments.ts:58-66 | the emergency department exists and charges 120, the highest price |
| Departments.CatalogName | config/departments.ts:3-94 | each catalog id's name lookup gives that entry's name |
| Departments.ShortLabelsNamed | components/doctor/consultation-queue.tsx:51-61 | every department in the six-entry label table gets the same name as in the catalog |
| Departments.ShortLabelsListed | components/cashier/daily-summary.tsx:36-46 | every key of the six-entry table is a catalog id |
| Departments.ShortLabelsMissing | components/hr/hospital-stats.tsx:72-82 | the six-entry table lacks exactly maternity, psychiatry and ophthalmology among the catalog ids |
| Departments.OverviewNamesMaternity | components/hr/patients-overview.tsx:88-99 | the overview's table adds maternity, under its catalog name |
| Workflow.WaitingPayments | app/page.tsx:395 | an order-preserving subsequence that holds exactly the patients waiting for payment |
| Workflow.WaitingConsultations | app/page.tsx:396 | an order-preserving subsequence that holds exactly the patients waiting for a consultation |
| Workflow.HospitalizedPatients | app/page.tsx:397 | an order-preserving subsequence that holds exactly the patients flagged as hospitalized |
| Workflow.MarkPaid | app/page.tsx:364-370 | same length; each patient with the id becomes waiting-for-consultation and paid, with that payment date; every other patient is unchanged |
| Workflow.SetInConsultation | app/page.tsx:384 | same length; only patients with the id change, and only their status, to in-consultation |
| Workflow.ReplaceById | app/page.tsx:390 | same length and ids; each element with the updated patient's id is replaced by it, every other element is unchanged |
| Workflow.FoundIff | app/page.tsx:377-378 | the lookup by id succeeds exactly when some patient has that id |
| Workflow.FrontDesk.constructor | app/page.tsx:318-322 | the store starts with the given patients and payments, nothing selected, and no consultation in progress |
| Workflow.FrontDesk.RegisterPatient | app/page.tsx:357-360 | the patient is appended last; the payments and the selection are unchanged |
| Workflow.FrontDesk.ProcessPayment | app/page.tsx:362-374 | the patients become `MarkPaid` of the old list; exactly one payment is appended, even for an unknown id |
| Workflow.FrontDesk.StartConsultation | app/page.tsx:376-386 | an unknown id changes nothing; a known id selects the first such patient, marks a consultation in progress and sets that id's status; the current status is not checked |
| Workflow.FrontDesk.CompleteConsultation | app/page.tsx:388-393 | the patients become `ReplaceById` of the old list; no consultation is in progress afterwards |
| Workflow.RegisterWaitingPayments | app/page.tsx:357-358 | registering extends the waiting-for-payment queue by the new patient exactly when that patient waits for payment |
| Workflow.MarkPaidWaitingPayments | app/page.tsx:364-370 | after a payment the waiting-for-payment queue is the old one without the patients of that id |
| Workflow.MarkPaidWaitingConsultations | app/page.tsx:364-370 | the paid patient, as updated, is in the consultation queue |
| Workflow.DepartmentCountIsQueueLength | app/page.tsx:479-480 | each department's waiting count on the queues overview is the length of the doctor's queue for that department |
| Queue.Rank | components/cashier/payment-processing.tsx:103-105 | the rank is 0, 1 or 2: 0 exactly for emergency, 2 exactly for normal |
| Queue.QueueLeTotalPreorder | components/cashier/payment-processing.tsx:101-112 | the comparator is total and transitive |
| Queue.SortedQueueOrdered | components/doctor/consultation-queue.tsx:103-115 | the sorted queue is a permutation of its input, ordered by rank and, within one rank, by registration time |
| Queue.EmergencyFirst | components/cashier/payment-processing.tsx:103-109 | nobody stands before an emergency patient except another emergency patient |
| Queue.SortQueue | components/cashier/payment-processing.tsx:100-112 | the in-place sort leaves the array a permutation of its old contents, in queue order, equal to the stable sort |
| Queue.BuildPayment | components/cashier/payment-processing.tsx:20-35 | the payment carries the patient's id, the chosen method, paid status and consultation type; the amount is the patient's or 0; the department is the patient's or "" |
| Queue.MethodChoice.constructor | components/cashier/payment-processing.tsx:18 | no method is chosen for anyone at first |
| Queue.MethodChoice.Choose | components/cashier/payment-processing.tsx:140-148 | the choice for that patient is set and every other choice is kept |
| Queue.MethodChoice.Validate | components/cashier/payment-processing.tsx:159-163 | a payment comes out exactly when a method was chosen for that patient, and it is built with that method |
| Queue.DepartmentQueue | components/doctor/consultation-queue.tsx:22-24 | an order-preserving subsequence that holds exactly the patients of the department waiting for a consultation |
| Queue.Numbered | components/doctor/consultation-queue.tsx:116-120 | the position shown is the 1-based index, so the head of the queue shows 1 |
| Queue.ElapsedMinutes | components/doctor/consultation-queue.tsx:40 | the whole minutes d satisfy d·60000 ≤ elapsed < (d+1)·60000, a floor for negative elapsed times too |
| Queue.WaitOf | components/doctor/consultation-queue.tsx:42-48 | minutes only when d < 60; otherwise hours ≥ 1 and minutes < 60 with hours·60 + minutes = d |
| Registration.SplitList | components/reception/patient-registration.tsx:96-103 | the kept pieces are non-empty, trimmed and comma-free, in input order; every piece that is non-empty after trimming is kept |
| Registration.SplitListJoin | components/reception/patient-registration.tsx:96-103 | splitting the comma join of non-empty trimmed items gives the items back |
| Registration.ValidContacts | components/reception/patient-registration.tsx:80-82 | an order-preserving subsequence that holds exactly the contacts whose trimmed name and phone are non-empty |
| Registration.Lookup | components/reception/patient-registration.tsx:77 | nothing is found exactly when no entry has the key; otherwise some entry has that key and price |
| Registration.PriceOf | components/reception/patient-registration.tsx:77-111 | the price listed for the department in the local list, which is positive; 0 for a department the list lacks |
| Registration.LocalPricesPositive | components/reception/patient-registration.tsx:40-50 | every local price is positive |
| Registration.LocalPricesKeysDistinct | components/reception/patient-registration.tsx:40-50 | no department appears twice in the local price list |
| Registration.LocalPricesMatchCatalog | components/reception/patient-registration.tsx:40-50 | the local price list has one entry per catalog department, at the catalog's price |
| Registration.QrCode | components/reception/patient-registration.tsx:52-54 | "PAT" followed by digits only; the code has length 9 exactly when the timestamp has at least six digits |
| Registration.QrCodeDigits | components/reception/patient-registration.tsx:53 | the digits after "PAT" read back as the timestamp mod 1000000 |
| Registration.LastDigits | components/reception/patient-registration.tsx:53 | the last k characters of a decimal rendering read back as its last k digits |
| Registration.NewPatient | components/reception/patient-registration.tsx:84-114 | waiting for payment, payment pending, not hospitalized, empty history and medications; the form's name, birth date, gender, phone, email, address, department, consultation type and priority copied; the valid contacts, the split lists and the department's price |
| Registration.PriceOfCatalog | components/reception/patient-registration.tsx:77-111 | for any department id the form charges the catalog's consultation price, and 0 for an id the catalog lacks |
| Registration.RegistrationForm.constructor | components/reception/patient-registration.tsx:21-38 | an empty form with one empty contact |
| Registration.RegistrationForm.ChangeContact | components/reception/patient-registration.tsx:56-60 | only the given field of the given contact changes; the length is kept |
| Registration.RegistrationForm.AddContact | components/reception/patient-registration.tsx:62-64 | one empty contact is appended |
| Registration.RegistrationForm.RemoveContact | components/reception/patient-registration.tsx:66-72 | the entry at the index is removed only when there is more than one; the list never becomes empty |
| Registration.RegistrationForm.Submit | components/reception/patient-registration.tsx:74-134 | returns `NewPatient` of the old form and contacts, then resets both |
| Medications.WithSuggestion | components/doctor/integrated-consultation.tsx:113-120 | the draft takes the suggestion's name, dosage and frequency and keeps every other field |
| Medications.SuggestionsAccepted | components/doctor/integrated-consultation.tsx:76-97 | every suggested medication has a name and a dosage, so it can be added once picked |
| Medications.MedicationEditor.constructor | components/doctor/integrated-consultation.tsx:99-111 | no medications, and a blank draft with the screen's blank category ("autre" here, none in the form) |
| Medications.MedicationEditor.Add | components/doctor/consultation-form.tsx:44-55 | with a name and a dosage the draft is appended and reset; otherwise nothing changes |
| Medications.MedicationEditor.PickCommon | components/doctor/integrated-consultation.tsx:113-120 | the draft becomes `WithSuggestion`; the list is unchanged |
| Medications.Edited | components/doctor/integrated-consultation.tsx:606-671 | only the edited field takes the new value; typing a name or a dosage decides acceptance with the other of the two, any other edit keeps it |
| Medications.TypedDraftAccepted | components/doctor/consultation-form.tsx:257-276 | a draft with a typed non-empty name and dosage can be added |
| Medications.MedicationEditor.EditDraft | components/doctor/integrated-consultation.tsx:606-671 | the draft becomes `Edited` of the old draft; the list is unchanged |
| Medications.MedicationEditor.Remove | components/doctor/integrated-consultation.tsx:122-124 | exactly the element at the index is removed, the others keep their order |
| Consultation.Symptoms | components/doctor/integrated-consultation.tsx:154 | one symptom per comma-separated piece, in order, each the trimmed piece; so comma-free, trimmed at both ends and no longer than the input |
| Consultation.SymptomsKeepEmpty | components/doctor/consultation-form.tsx:72 | empty input gives one empty symptom and "," gives two; the registration splitter would drop them |
| Consultation.SymptomsJoin | components/doctor/integrated-consultation.tsx:154 | splitting the comma join of trimmed comma-free symptoms gives them back |
| Consultation.RecordDepartment | components/doctor/consultation-form.tsx:75 | "general" exactly when the department is missing, empty or "general"; otherwise the department |
| Consultation.MedicationLine | components/doctor/integrated-consultation.tsx:170 | the name, one space, then the dosage |
| Consultation.Discharge | components/doctor/integrated-consultation.tsx:163-169 | hospitalized (status, flag, room and admission date set) iff the flag is set, otherwise completed with room and date cleared; the history gains exactly the record, last; nothing else changes |
| Consultation.IntegratedPrescription | components/doctor/integrated-consultation.tsx:129-144 | present iff there are medications; it carries them, the doctor and the instructions, and `validUntil` is 30 days after now |
| Consultation.IntegratedSubmit | components/doctor/integrated-consultation.tsx:126-174 | the record's fields, the prescription, the discharge, and `currentMedications` as one "name dosage" line per medication |
| Consultation.FormPrescription | components/doctor/consultation-form.tsx:76-86 | present iff there are medications; its instructions are the treatment text; doctor name, department and validity are absent |
| Consultation.FormSubmit | components/doctor/consultation-form.tsx:61-100 | the record's fields, the prescription and the discharge; `currentMedications` is left unchanged |
| Consultation.ScreensAgreeOnPatient | components/doctor/consultation-form.tsx:90-97 | both screens produce the same patient except for the new record and the medication list |
| Consultation.CompletionLeavesQueues | app/page.tsx:388-397 | after completion the patient is in neither the payment queue nor the doctor's queue, and is among the hospitalized exactly when hospitalized |
| LabResults.FromTemplate | components/doctor/lab-results-tab.tsx:95-105 | one row per template item, in order, with its name, unit and range, an empty value and not abnormal |
| LabResults.Applied | components/doctor/lab-results-tab.tsx:132-136 | only the edited field changes; the name is kept |
| LabResults.TypeDefaults | components/doctor/lab-results-tab.tsx:71-93 | electrophoresis loads its five-row template and name; a blood test sets its name and clears the rows; any other type clears both |
| LabResults.NewLabResult | components/doctor/lab-results-tab.tsx:110-121 | status completed, requested and reviewed by the doctor, carrying the form's rows, name, type and notes |
| LabResults.ElectrophoresisSubmittable | components/doctor/lab-results-tab.tsx:36-42 | the electrophoresis defaults are Albumine, Alpha-1, Alpha-2, Beta and Gamma, with unfilled values, and can be submitted as they stand |
| LabResults.BlankNotAccepted | components/doctor/lab-results-tab.tsx:52-63 | the reset draft cannot be added |
| LabResults.LabForm.constructor | components/doctor/lab-results-tab.tsx:23-33 | blood test, empty name, notes and rows, and a blank draft |
| LabResults.LabForm.AddValue | components/doctor/lab-results-tab.tsx:52-63 | with a name and a filled value the draft is appended and reset; otherwise nothing changes |
| LabResults.TypedDraftAccepted | components/doctor/lab-results-tab.tsx:304-314 | a draft can be added exactly when the typed name and value are both non-empty |
| LabResults.LabForm.EditDraftName | components/doctor/lab-results-tab.tsx:305-309 | the draft's name becomes the typed text; nothing else changes |
| LabResults.LabForm.EditDraft | components/doctor/lab-results-tab.tsx:310-324 | the draft becomes `Applied` of the old draft and the edit; nothing else changes |
| LabResults.LabForm.SetName | components/doctor/lab-results-tab.tsx:166-171 | the analysis name becomes the typed text; nothing else changes |
| LabResults.LabForm.SetNotes | components/doctor/lab-results-tab.tsx:330-335 | the notes become the typed text; nothing else changes |
| LabResults.LabForm.RemoveValue | components/doctor/lab-results-tab.tsx:65-69 | exactly the element at the index is removed |
| LabResults.LabForm.UpdateValue | components/doctor/lab-results-tab.tsx:132-136 | only the given field of the given row changes; the length is kept |
| LabResults.LabForm.ChangeType | components/doctor/lab-results-tab.tsx:71-93 | the type is set and the name and rows become its defaults |
| LabResults.LabForm.LoadTemplate | components/doctor/lab-results-tab.tsx:95-105 | the rows become `FromTemplate` of the template |
| LabResults.LabForm.Submit | components/doctor/lab-results-tab.tsx:107-130 | with an empty name or no rows nothing happens; otherwise `NewLabResult` is emitted and the form is reset |
| DailySummary.DayPayments | components/cashier/daily-summary.tsx:17 | an order-preserving subsequence that holds exactly the payments dated the selected day |
| DailySummary.MethodTotalsCover | components/cashier/daily-summary.tsx:19-22 | the cash, card and insurance totals add up to the day total |
| DailySummary.BreakdownKeys | components/cashier/daily-summary.tsx:24-34 | each department paid to has exactly one entry, there are no others, and each counts at least one payment |
| DailySummary.BreakdownSums | components/cashier/daily-summary.tsx:24-34 | the counts add up to the number of payments and the amounts to the day total |
| DailySummary.BreakdownEntries | components/cashier/daily-summary.tsx:26-30 | each entry's count and amount are those of the payments to its department |
| DailySummary.TalliedKeys | components/cashier/daily-summary.tsx:26-28 | one step of the reduce keeps one entry per department |
| DailySummary.TalliedSums | components/cashier/daily-summary.tsx:29-30 | one step adds one to the counts and the payment's amount to the amounts |
| DailySummary.TalliedEntry | components/cashier/daily-summary.tsx:26-30 | one step keeps every entry equal to the count and amount of its department's payments |
| DailySummary.DepartmentStats | components/cashier/daily-summary.tsx:24-34 | the loop builds `Breakdown`: one entry per department, exact per-department counts and amounts, and the sums of both |
| DailySummary.RoundedRatio | components/cashier/daily-summary.tsx:143 | the integer nearest to num/den, halves rounded up |
| DailySummary.TimeDescTotalPreorder | components/cashier/daily-summary.tsx:159 | the time comparator is total and transitive |
| DailySummary.RecentPayments | components/cashier/daily-summary.tsx:158-160 | the array is stably sorted in place; at most 10 payments come out (10 when there are that many), all from the day, latest time first |
| HospitalStats.PeriodStart | components/hr/hospital-stats.tsx:22-34 | the week starts 7 days before now; the month and the default day start at the given boundaries |
| HospitalStats.PeriodPatients | components/hr/hospital-stats.tsx:36 | an order-preserving subsequence that holds exactly the patients registered at or after the start |
| HospitalStats.PeriodPayments | components/hr/hospital-stats.tsx:37 | an order-preserving subsequence that holds exactly the payments dated at or after the start |
| HospitalStats.PeriodMonotone | components/hr/hospital-stats.tsx:36 | a later start keeps a subsequence of what an earlier start keeps |
| HospitalStats.HeadCounts | components/hr/hospital-stats.tsx:46-47 | the hospitalized and completed counts, each at most the number of patients |
| HospitalStats.PatientBreakdownFacts | components/hr/hospital-stats.tsx:49-63 | no department has two rows; each row has at least one patient and no more consultations than patients; revenue 0; the patient counts add up to the patients that have a department |
| HospitalStats.PatientBreakdownRows | components/hr/hospital-stats.tsx:49-63 | the rows are exactly the departments of the patients that have one, and each row holds that department's number of patients and of completed patients |
| HospitalStats.CountedKeys | components/hr/hospital-stats.tsx:51-54 | one step of the reduce keeps the row keys equal to the departments seen so far |
| HospitalStats.CountedRow | components/hr/hospital-stats.tsx:51-58 | after one step every row still holds its own department's patient and completed counts |
| HospitalStats.CountedFacts | components/hr/hospital-stats.tsx:50-59 | one step of the reduce keeps those row facts and adds one patient exactly when the patient has a department |
| HospitalStats.DepartmentStats | components/hr/hospital-stats.tsx:49-63 | the loop builds `PatientBreakdown`: one row per department of the patients and no other, each with that department's patient and completed counts, revenue 0, and the patient sum |
| HospitalStats.CreditFacts | components/hr/hospital-stats.tsx:66-70 | crediting changes only revenue, which grows by exactly the payments of listed departments |
| HospitalStats.AddRevenue | components/hr/hospital-stats.tsx:66-70 | the `forEach` loop computes `Credit`: same rows, each row's revenue grown by the payments whose department is found at that row, and the total grown by the listed departments' payments |
| HospitalStats.CreditRevenue | components/hr/hospital-stats.tsx:66-70 | each row gains exactly the amounts of the payments whose department is first found at that row |
| HospitalStats.RoutedToOwn | components/hr/hospital-stats.tsx:67 | with distinct row keys, the payments found at a row are exactly that department's payments |
| HospitalStats.TableRows | components/hr/hospital-stats.tsx:49-70 | the finished table has one row per department of the patients and no other, with that department's patients, completed consultations and the total of its payments |
| HospitalStats.BuildTable | components/hr/hospital-stats.tsx:49-70 | running both passes gives `Table`, with every fact of `TableRows` |
| HospitalStats.RevenueBounded | components/hr/hospital-stats.tsx:44-70 | with non-negative amounts the department revenues add up to at most the total revenue |
| HospitalStats.RevenueDescTotalPreorder | components/hr/hospital-stats.tsx:177 | the revenue comparator is total and transitive |
| HospitalStats.RankByRevenue | components/hr/hospital-stats.tsx:176-177 | the rows, sorted stably in place, are a permutation in non-increasing revenue order |
| HospitalStats.Average | components/hr/hospital-stats.tsx:193-195 | shown exactly when there are consultations, then the rounded revenue per consultation |
| HospitalStats.Share | components/hr/hospital-stats.tsx:248 | 0 when the total is 0; otherwise between 0 and 100 for an amount within the total |
| HospitalStats.MethodShareBounds | components/hr/hospital-stats.tsx:244-248 | each method's share of the revenue is between 0 and 100 |
| PatientsOverview.NextConfig | components/hr/patients-overview.tsx:29-34 | the key clicked becomes the column; descending exactly when it was the current column and ascending |
| PatientsOverview.SortToggleTwice | components/hr/patients-overview.tsx:29-34 | two clicks on the current column give the configuration back |
| PatientsOverview.SortState.constructor | components/hr/patients-overview.tsx:24-27 | sorted by last name, ascending |
| PatientsOverview.SortState.HandleSort | components/hr/patients-overview.tsx:29-34 | the configuration becomes `NextConfig` of the old one |
| PatientsOverview.FilteredPatients | components/hr/patients-overview.tsx:48-59 | an order-preserving subsequence that holds exactly the patients matching the search, the department and the status, "all" matching everything |
| PatientsOverview.NoFilterShowsAll | components/hr/patients-overview.tsx:48-59 | with no search and both selectors on "all" every patient is shown |
| PatientsOverview.OverviewLeTotalPreorder | components/hr/patients-overview.tsx:62-79 | the column comparator is total and transitive |
| PatientsOverview.SortedPatientsOrdered | components/hr/patients-overview.tsx:62-79 | a permutation ordered by the column in the chosen direction; an unknown column keeps the order |
| PatientsOverview.Counts | components/hr/patients-overview.tsx:82-85 | the total, and the number of patients hospitalized, waiting for a consultation and in consultation; waiting plus in-consultation is at most the total |
| PatientsOverview.CountsMatchFrontDesk | components/hr/patients-overview.tsx:82-85 | the hospitalized and waiting cards count the front desk's hospitalized list and consultation queue |
| PatientsOverview.DepartmentLabel | components/hr/patients-overview.tsx:88-99 | the seven-entry table's label, or the id itself |
| PatientsOverview.StatusLabel | components/hr/patients-overview.tsx:102-111 | the table's label, or the key itself |
| PatientsOverview.StatusLabelsCover | components/hr/patients-overview.tsx:102-111 | every status but "registered" has a label; that one shows its key |
| ConsultationMenu.InMyDepartment | components/doctor/consultation-menu.tsx:33-34 | an order-preserving subsequence that holds exactly the patients of the user's department |
| ConsultationMenu.InConsultationHere | components/doctor/consultation-menu.tsx:37-39 | an order-preserving subsequence that holds exactly the in-consultation patients of the department |
| ConsultationMenu.TodayConsultations | components/doctor/consultation-menu.tsx:42-45 | the patients with a history record that starts with today's date and was written by this doctor |
| ConsultationMenu.MyPatients | components/doctor/consultation-menu.tsx:48-50 | the patients with a record by this doctor who are not hospitalized |
| ConsultationMenu.TodayAreTreated | components/doctor/consultation-menu.tsx:42-50 | everyone seen today by the doctor was treated by the doctor |
| ConsultationMenu.StatusBadge | components/doctor/consultation-menu.tsx:52-63 | the status table's label, or the raw key |
| ConsultationMenu.PriorityBadge | components/doctor/consultation-menu.tsx:65-78 | the priority table's label, or the raw key |
| ConsultationMenu.RawBadges | components/doctor/consultation-menu.tsx:52-78 | an emergency patient's badge reads "emergency" and a registered patient's "registered"; the others are labelled |
| DepartmentManagement.DeptPatients | components/admin/department-management.tsx:20 | exactly the patients of that department |
| DepartmentManagement.DepartmentStats | components/admin/department-management.tsx:19-34 | the number of the department's patients waiting, in consultation, hospitalized and registered today, counted over the whole list; waiting plus in-consultation is at most the department's patients |
| DepartmentManagement.EmptyDepartment | components/admin/department-management.tsx:19-34 | a department without patients has all-zero stats |
| DepartmentManagement.WaitingMatchesQueue | components/admin/department-management.tsx:21 | the waiting count is the length of that department's consultation queue |
| HospitalizedView.WardList | components/doctor/hospitalized-patients.tsx:26-32 | an order-preserving subsequence that holds exactly the hospitalized patients whose lower-cased name or room contains the lower-cased term |
| HospitalizedView.EmptySearchKeepsWard | components/doctor/hospitalized-patients.tsx:26-32 | an empty term keeps every hospitalized patient |
| HospitalizedView.StayDays | components/doctor/hospitalized-patients.tsx:49-50 | the ceiling of the absolute time difference in days |
| HospitalizedView.StayText | components/doctor/hospitalized-patients.tsx:44-53 | "N/A" without an admission date, "1 jour" for exactly one day, otherwise "N jours" |
| HospitalizedView.LatestDiagnosis | components/doctor/hospitalized-patients.tsx:98 | the last history record's diagnosis, none when the history is empty |
| PatientList.ListedPatients | components/patients/patient-list.tsx:22-34 | an order-preserving subsequence that holds exactly the patients matching the search and the filter |
| PatientList.AllKeepsMatches | components/patients/patient-list.tsx:28-29 | "all" keeps every search match |
| PatientList.HospitalizedKeepsWard | components/patients/patient-list.tsx:31 | "hospitalized" keeps only the hospitalized search matches |
| PatientList.ActiveListsNobody | components/patients/patient-list.tsx:30 | "active" keeps nobody, since no status has that key |
| PatientList.StatusBadge | components/patients/patient-list.tsx:36-44 | the hospitalized badge exactly for hospitalized patients, checked first |
| PatientList.NeverActive | components/patients/patient-list.tsx:36-44 | the active badge never shows; a patient who is not hospitalized is shown as inactive |
| PatientDetail.NewestFirstTotalPreorder | components/patients/patient-detail.tsx:38-40 | the date comparator is total and transitive |
| PatientDetail.SortedHistoryOrdered | components/patients/patient-detail.tsx:38-40 | the sorted history is a permutation of the history, newest first |
| PatientDetail.ViewExact | components/patients/patient-detail.tsx:584-587 | any filtered view of the sorted history holds the history's matching records, newest first |
| PatientDetail.ConsultationsExact | components/patients/patient-detail.tsx:43-45 | exactly the consultation and follow-up records, newest first |
| PatientDetail.HospitalizationsExact | components/patients/patient-detail.tsx:47 | exactly the hospitalization records, newest first |
| PatientDetail.RecentActivityNewest | components/patients/patient-detail.tsx:303 | at most three records, and none left out is newer than one shown |
| PatientDetail.CurrentStayUnique | components/patients/patient-detail.tsx:646 | at most one record shows the current stay, and it is the most recent hospitalization |
| PatientDetail.ElectrophoresisRows | components/patients/patient-detail.tsx:62-66 | an order-preserving subsequence that holds exactly the rows named Albumine, Alpha-1, Alpha-2, Beta or Gamma |
| PatientDetail.TemplateRowsShown | components/patients/patient-detail.tsx:62-66 | a result filled from the electrophoresis template shows all five of its rows |
| PatientDetail.Age | components/patients/patient-detail.tsx:35 | the difference of the years, birthday ignored |
| QrScanner.HandleScan | components/qr-scanner/qr-scanner.tsx:21-29 | none exactly when no patient has the code; otherwise the first patient in list order carrying exactly that code |
| QrScanner.ScanFindsFirst | components/qr-scanner/qr-scanner.tsx:22 | the first patient with the code is the one found |
| Seqs.Filter | app/page.tsx:395-397 | `filter`: an order-preserving subsequence that holds exactly the elements that pass |
| Seqs.Find | app/page.tsx:377 | `find`: none exactly when nothing passes; otherwise the first element that does |
| Seqs.RemoveAt | components/doctor/lab-results-tab.tsx:65-69 | `splice(i, 1)` or a filter by index: the element at i is gone and the rest keep their order; an index past the end removes nothing |
| Seqs.UpdateAt | components/reception/patient-registration.tsx:57-58 | only the element at the index changes |
| Seqs.Map | components/doctor/integrated-consultation.tsx:170 | `map`: same length, f applied at every position |
| Seqs.Take | components/cashier/daily-summary.tsx:160 | `slice(0, n)`: the first min(n, length) elements |
| Seqs.FirstIndex | components/cashier/daily-summary.tsx:26 | the index of the first match, or the length when there is none |
| Seqs.FilterPermutation | components/patients/patient-detail.tsx:43-47 | filtering two permutations of each other gives permutations of each other |
| Sorting.SortBy | components/cashier/payment-processing.tsx:100-112 | the sort is a permutation of its input |
| Sorting.SortByStable | components/cashier/payment-processing.tsx:100-112 | with a consistent comparator, the elements that tie with any given one keep their input order |
| Sorting.SortBySorted | components/cashier/payment-processing.tsx:100-112 | with a consistent comparator the result is ordered |
| Sorting.SortByIdentity | components/hr/patients-overview.tsx:62-79 | a sequence already in order is left as it is |
| Sorting.SortByIdempotent | components/patients/patient-detail.tsx:38-40 | sorting twice is sorting once |
| Sorting.InsertionSort | components/doctor/consultation-queue.tsx:103-115 | the in-place sort leaves the array equal to `SortBy` of its old contents |
| Text.Trim | components/reception/patient-registration.tsx:81 | `trim`: the input with its leading and trailing white space removed: it occurs right after the leading white space, everything cut is white space, and it starts and ends with no white space |
| Text.TrimEmptyIff | components/reception/patient-registration.tsx:81 | a trimmed string is empty exactly when the original is all white space |
| Text.TrimIdempotent | components/reception/patient-registration.tsx:98 | trimming twice is trimming once |
| Text.Split | components/reception/patient-registration.tsx:97 | `split`: at least one piece, none containing the separator |
| Text.JoinSplit | components/reception/patient-registration.tsx:97 | joining the pieces with the separator gives the input back |
| Text.SplitJoin | components/reception/patient-registration.tsx:97 | splitting the join of separator-free pieces gives the pieces back |
| Text.IncludesIff | components/hr/patients-overview.tsx:49-53 | `includes` holds exactly when the substring occurs at some offset |
| Text.Last | components/reception/patient-registration.tsx:53 | `slice(-n)`: the last min(n, length) characters |
| Text.NatToString | components/reception/patient-registration.tsx:85 | decimal digits, at least one, with no leading zero |
| Text.ParseNatToString | components/reception/patient-registration.tsx:85 | the rendering reads back as the number |
| Text.DigitCount | components/reception/patient-registration.tsx:53 | a number has more than k digits exactly when it is at least 10^k |
| Text.StrLeTotal | components/hr/patients-overview.tsx:65-76 | the string order is total |
| Text.StrLeTransitive | components/hr/patients-overview.tsx:65-76 | the string order is transitive |

## Left out

- JSX rendering, badge colors, layout, `tailwind.config.ts`, the login form, the dashboard's static figures and the sidebar's navigation table: presentation with no logic of the core.
- Prescription printing (`components/doctor/prescription-print.tsx` and `handlePrintPrescription`) builds HTML and opens a browser window.
- `simulateQRScan`: it picks a patient with `Math.random` behind a `setTimeout`.
- Clock, `Date.toISOString` and date parsing are parameters (`nowMs`, `iso`, `timeOf`), and `toLocaleTimeString` output is an input string.
  - The registration id and the QR code take separate clock readings (`idMs`, `qrMs`).
  - A consultation or lab-result submit uses one instant for all its fields.
- Local-time boundaries are inputs: start of day, start of month, `toDateString` equality (`sameDay`).
- HospitalStats.Average and DailySummary.RoundedRatio round the exact ratio, halves up. `Math.round` of a floating-point quotient can differ on a float rounding error, which is not modelled.
- HospitalStats.Share: only the 0..100 bound and the zero case are stated, not the exact float rounding of `amount / total * 100`.
- Vital signs are taken as already parsed (`parseFloat` is not modelled).
- `localeCompare` is modelled as lexicographic code-unit order (`Text.StrLe`), which is a total order but not the French collation.
- `toLowerCase` is an abstract parameter `lower`, with no Unicode case mapping.
- LabResults.LabForm.ChangeType: React batches the two `setLabValues` calls of the type handler, and only the final value is modelled.
- The "high" and "low" priority labels of the consultation menu can never be reached, because priority is a closed three-value type.
- Objects keyed by department id are association lists in insertion order. A department id such as "constructor", which collides with an `Object.prototype` member in JavaScript, is not modelled.
- Registration.RegistrationForm.ChangeContact and LabResults.LabForm.UpdateValue require an index inside the list. JavaScript would create a sparse entry for an index past the end, but the screens only pass indices of rows they draw.
- The HTML `required` attributes of the registration and consultation forms are browser validation. `handleSubmit` does not check them, so the model accepts any input as well.
- PatientDetail.CurrentStayUnique identifies "the first hospitalization" by its position in the sorted view, not by object identity (`record === hospitalizations[0]`).
- An unparsable date (`Invalid Date`, giving `NaN` in the comparisons) is outside what `timeOf` can return.
- PatientDetail.Age subtracts the birth year from the current year and ignores whether the birthday has passed, as the screen does.
- Gender has a third value, `Unspecified`, for the empty string the registration form submits when no gender is chosen.
