# Seu Bolso na Mão — verified model of the app's client-side rules

"Seu Bolso na Mão" is a personal-finance web app written in React and TypeScript. Its data
and authentication live in a remote backend. This project models in Dafny the rules the
client applies around those remote calls, and proves what the screens promise:

- **ReminderEditModal**: the installment-reminder editor. It covers pt-BR currency
  normalisation, save-time validation, the installment counter and "mark as paid". That
  handler advances the counter, deactivates the reminder after the last installment and
  rolls the due date to `day_of_month` of the next month.
- **DateRangePicker**: the two-click range selection, the month view and its navigation,
  the calendar grid and the range label.
- **Relatorios**: the "expenses by category" chart. It groups rows by category name in an
  insertion-ordered map, sums absolute amounts, applies a stable descending sort and keeps
  the top six.
- **SettingsPanel**: the category editor (split by type, rename, remove, add) and the
  account-type label. **Setup** covers the onboarding lists of income and expense names.
- **NovoLancamento**: the new/edit transaction form. It covers validation, amount
  normalisation, the category filter, the type-change reset, the submit rule and the row
  written.
- **AdvertisementsCarousel** and **FinancialCarousel**: index clamping, swipe thresholds,
  autoplay and navigation dots.
- **ProtectedRoute**: the redirect decision of the route guard.
- **UserProfile** and **Perfil**: initials, display names and onboarding progress.

Shared modules:

- `Wrappers`: an `Option` type.
- `Text`: the ECMAScript whitespace class used by `trim` and `\s`, trimming,
  single-character remove and replace, ASCII upper-casing and the e-mail local part.
- `Calendar`: proleptic Gregorian dates. `MakeDate` is `new Date(y, m, d)`, for years
  outside 0..99, with MakeDay's carry (ECMA-262, section 21.4, Date Objects), and `DayNumber` gives the day
  count that JavaScript's date comparisons use.
- `Categories`: category rows and the filter by type.

Modelling conventions:

- Amounts are integer cents.
- Dates are (year, 0-based month, day) triples in local time.
- An absent optional string is the empty string, because every use in the source is a
  truthiness test.
- `Number`, `parseFloat` and `parseInt` are function parameters.
- Remote calls are modelled by what the handler does once they succeed.
- Stateful components are classes. Their handlers are methods whose `ensures` give the
  whole new state.

## Model

| member | source | states |
|---|---|---|
| ReminderEditModal.NormalizeCurrencyPtBrShape | src/components/ReminderEditModal.tsx:34-38 | the normalised amount text has no whitespace and no ','; its '.' count equals the input's ',' count; every other character keeps its count |
| ReminderEditModal.NormalizedCommaCount | src/components/ReminderEditModal.tsx:36-38 | each ',' of the input becomes exactly one '.', and no original '.' survives |
| ReminderEditModal.NormalizeCurrencyPtBrAppend | src/components/ReminderEditModal.tsx:35-38 | the normalisation of a concatenation is the concatenation of the normalisations, so what stays keeps its order |
| ReminderEditModal.NormalizeCurrencyPtBrChar | src/components/ReminderEditModal.tsx:35-38 | on one character: whitespace and '.' vanish, ',' becomes '.', anything else is kept |
| ReminderEditModal.NormalizeIsCharwise | src/components/ReminderEditModal.tsx:35-38 | the three whole-string replacements equal one left-to-right pass that maps each character on its own |
| ReminderEditModal.ThousandsSeparatorDropped | src/components/ReminderEditModal.tsx:35-38 | for any digit strings, an amount written units "." thousands "," cents (such as "1.234,56") becomes units thousands "." cents ("1234.56"): the digits keep their order |
| ReminderEditModal.DigitsKept | src/components/ReminderEditModal.tsx:35-38 | a string of digits comes out of the normalisation unchanged |
| ReminderEditModal.Save | src/components/ReminderEditModal.tsx:43-64 | rejects for a blank trimmed description, then for an amount that is not a positive number, then for a day outside 1..31, each as an iff; an accepted edit has the trimmed description, the parsed amount, the day, and the installment total `Math.max(1, parseInt(...))` of the field read as '1' when empty: at least 1, or NaN exactly when parsing fails |
| ReminderEditModal.AtLeastOne | src/components/ReminderEditModal.tsx:59 | `Math.max(1, n)` is at least 1 and at least `n`, keeps every `n >= 1`, and NaN stays NaN |
| ReminderEditModal.EmptyInstallmentsMeansOne | src/components/ReminderEditModal.tsx:59 | an empty installments field is saved as one installment |
| ReminderEditModal.DisplayedInstallment | src/components/ReminderEditModal.tsx:207 | the "Parcela k de n" number lies in 1..n when n >= 1; it is paid+1 while installments remain and n once all are paid |
| ReminderEditModal.ButtonNamesNextInstallment | src/components/ReminderEditModal.tsx:293-301 | whenever the mark-as-paid button is shown, it names the same installment as the status line, the next unpaid one |
| ReminderEditModal.MarkAsPaid | src/components/ReminderEditModal.tsx:119-161 | records an expense of the reminder's description and amount; paid count goes up by exactly one; active iff the new count is below the total; the due date is unchanged on the last installment or without a day, and otherwise becomes `new Date(y, m + 1, day)` |
| ReminderEditModal.ClampNeverFires | src/components/ReminderEditModal.tsx:146-151 | for every day 1..31 the clamp condition `day > lastDayOfMonth` is false, because the last day is read from the already-carried date |
| ReminderEditModal.ClampFiresBeyondThirtyOne | src/components/ReminderEditModal.tsx:146-151 | the clamp condition can only be true for days above 31; day 40 after January carries into March, whose last day is 31 |
| ReminderEditModal.RolloverSkipsFebruary | src/components/ReminderEditModal.tsx:145-152 | as written, a January due date with day 31 rolls to 3 March |
| ReminderEditModal.ClampedNextDue | src/components/ReminderEditModal.tsx:147-151 | the intended rollover: the next month with the day clamped to that month's length, always a valid date |
| ReminderEditModal.ClampedNextDueAgreement | src/components/ReminderEditModal.tsx:146-151 | the intended and the written rollover agree iff the day exists in the next month |
| Calendar.MakeDateIsMakeDay | src/components/ReminderEditModal.tsx:146 | `new Date(y, m, d)` lands `d - 1` days after the first of month `m`, for any `d`, as MakeDay specifies |
| Calendar.MakeDateCarry | src/components/ReminderEditModal.tsx:146 | a day past the month's end by at most the next month's length lands in the next month |
| Calendar.DayZeroIsLastOfPrevious | src/components/DateRangePicker.tsx:39 | day 0 of a month is the last day of the previous month |
| Calendar.ShortMonthThenLongMonth | src/components/ReminderEditModal.tsx:148 | every month of at most 30 days is followed by a 31-day month |
| Calendar.NextFirstOfMonth | src/components/DateRangePicker.tsx:43 | the first of the next month lies one month length after the first of this one, across year ends |
| DateRangePicker.GetDaysInMonthIsGregorian | src/components/DateRangePicker.tsx:38-40 | `getDaysInMonth` is the Gregorian length: 29 or 28 for February by the leap-year rule (both directions), 30 exactly for April, June, September and November, 31 otherwise |
| DateRangePicker.GetFirstDayOfMonth | src/components/DateRangePicker.tsx:42-44 | the weekday of the first of the month lies in 0..6 |
| DateRangePicker.GridColumnIsWeekDay | src/components/DateRangePicker.tsx:106-119 | with `getFirstDayOfMonth` leading blanks in a seven-column grid, every day falls in its own weekday's column |
| DateRangePicker.RangeIsInclusive | src/components/DateRangePicker.tsx:60-64 | both ends of a range are inside it, and without both ends no day is in range |
| DateRangePicker.FormatDateRangeForms | src/components/DateRangePicker.tsx:51-58 | the "start - end" label iff both dates are set, the "start - Selecione fim" label iff only the start is set, 'Selecionar período' iff there is no start |
| DateRangePicker.FormatDate | src/components/DateRangePicker.tsx:46-49 | the pt-BR text is dd/mm/yyyy: the day's two digits, '/', the two digits of the 1-based month, '/', then the year's decimal digits |
| DateRangePicker.FormatDateReadsBack | src/components/DateRangePicker.tsx:46-49 | the three fields of the label read back as the day, the 1-based month and the year |
| DateRangePicker.DigitsRoundTrip | src/components/DateRangePicker.tsx:48 | the decimal digits of a number read back as that number |
| DateRangePicker.OrderedRange | src/components/DateRangePicker.tsx:84-88 | the emitted pair is ordered (first not after second) and is the two dates clicked, in either order |
| DateRangePicker.Picker.HandleDayClick | src/components/DateRangePicker.tsx:77-92 | in start mode or with no start: emits (clicked, none), switches to end mode, keeps open; in end mode: emits the ordered pair of clicked and start, returns to start mode and closes; the footer hint before the click asks for a start date iff the click emits no end date, and the hint after it names the next step |
| DateRangePicker.FooterHint | src/components/DateRangePicker.tsx:194-196 | the hint asks for a start date iff the picker is choosing a start or has none, and for an end date otherwise |
| DateRangePicker.Picker.NavigateMonth | src/components/DateRangePicker.tsx:94-104 | the new month is `setMonth(month ± 1)` with the constructor's carry; when the current day exists in the neighbouring month, it is exactly that month, with year carry |
| DateRangePicker.NavigateFromThirtyFirstSkipsMonth | src/components/DateRangePicker.tsx:94-104 | as written, "next" from 31 January shows March |
| DateRangePicker.NeighbourMonth | src/components/DateRangePicker.tsx:94-104 | the intended move: the first of the month one step away, always valid |
| DateRangePicker.NeighbourMonthIsAdjacent | src/components/DateRangePicker.tsx:94-104 | the intended move is exactly one month forward or back, with the December/January year carry |
| DateRangePicker.Picker.RenderCalendar | src/components/DateRangePicker.tsx:106-142 | the grid is `firstDay` blanks followed by exactly `daysInMonth` day cells numbered 1..n in order, each with its selected and in-range flags |
| DateRangePicker.Picker.Toggle | src/components/DateRangePicker.tsx:145-160 | the trigger flips `isOpen` and changes nothing else |
| DateRangePicker.Picker.constructor | src/components/DateRangePicker.tsx:10-12 | the picker mounts closed, showing the current month, waiting for a start date |
| Relatorios.NameOf | src/pages/Relatorios.tsx:52 | a missing or empty category name groups under 'Sem categoria' |
| Relatorios.ColorOf | src/pages/Relatorios.tsx:53 | a missing or empty colour becomes '#9CA3AF' |
| Relatorios.Names | src/pages/Relatorios.tsx:49-61 | the map's keys: each category name once, exactly the names some row has |
| Relatorios.NamesInFirstAppearanceOrder | src/pages/Relatorios.tsx:56-60 | the keys are in insertion order: of two keys, the earlier one was first seen at an earlier row |
| Relatorios.UncategorisedGroup | src/pages/Relatorios.tsx:52-58 | rows without a named category all land in the 'Sem categoria' group, whose total includes each of their amounts |
| Relatorios.TotalForAtLeast | src/pages/Relatorios.tsx:54-58 | each row's absolute amount counts toward its own name's total |
| Relatorios.FirstColorIsFirstSeen | src/pages/Relatorios.tsx:56-60 | a group's colour is the colour of the first row with that name |
| Relatorios.GroupsConserveTotal | src/pages/Relatorios.tsx:49-69 | the group values add up to the sum of all absolute amounts: nothing lost, nothing counted twice |
| Relatorios.SortDesc | src/pages/Relatorios.tsx:70 | the sorted slices are in non-increasing value order and are a permutation of the input |
| Relatorios.SortDescIsStable | src/pages/Relatorios.tsx:64-70 | among slices of equal value the sorted order is the map's insertion order |
| Relatorios.SortDescKeepsDistinctNames | src/pages/Relatorios.tsx:56-70 | sorting keeps names distinct |
| Relatorios.Take | src/pages/Relatorios.tsx:71 | `slice(0, 6)` is a prefix of at most six, and the whole list when it is shorter |
| Relatorios.TopSlicesAreLargest | src/pages/Relatorios.tsx:70-71 | no slice left off the chart is larger than a slice on it |
| Relatorios.GroupByCategory | src/pages/Relatorios.tsx:49-61 | the `forEach` loop builds the insertion-ordered map: keys are the names in order of first appearance; each total is the sum of absolute amounts of that name; each colour is the first seen |
| Relatorios.AddRow | src/pages/Relatorios.tsx:51-60 | one callback keeps the map equal to the grouping of the rows seen so far plus the new row |
| Relatorios.ExpensesByCategory | src/pages/Relatorios.tsx:49-71 | the chart data has at most six slices, sorted, with distinct names; each slice's value is its name's total and its colour the first seen; equal to the specification `ChartData` |
| Relatorios.GroupsFacts | src/pages/Relatorios.tsx:64-71 | every chart slice is a group of a name that occurs, with that name's total and first colour |
| Categories.OfKind | src/components/SettingsPanel.tsx:48-49 | the filter by type holds exactly the categories of that type |
| Categories.OfKindAppend | src/pages/NovoLancamento.tsx:63 | the filter distributes over concatenation, so it keeps loaded order |
| Categories.OfKindPartition | src/components/SettingsPanel.tsx:48-49 | `entradas` and `saidas` together are a split of all categories, by multiset and by size |
| SettingsPanel.RenameWhere | src/components/SettingsPanel.tsx:71 | the `map` keeps the length and every other category; each category with the edited id takes the new name and colour and keeps its id and type |
| SettingsPanel.RenameKeepsKinds | src/components/SettingsPanel.tsx:48-49 | an edit never moves a category between the two lists; each list is edited in place |
| SettingsPanel.RemoveId | src/components/SettingsPanel.tsx:83 | after removal the list holds exactly the categories without that id |
| SettingsPanel.RemoveIdAppend | src/components/SettingsPanel.tsx:83 | removal distributes over concatenation, so the rest keeps its order |
| SettingsPanel.RemoveAbsentId | src/components/SettingsPanel.tsx:83 | removing an id no category has changes nothing |
| SettingsPanel.AccountTypeHuman | src/components/SettingsPanel.tsx:123-126 | 'Empresa' iff the account type is 'business', 'Pessoa Física' otherwise |
| SettingsPanel.DefaultForm | src/components/SettingsPanel.tsx:23-26 | an add form starts and resets to an empty name, closed, with '#3ecf8e' for income and '#FF7F6A' for expenses |
| SettingsPanel.NewRow | src/components/SettingsPanel.tsx:92-101 | a name that trims to nothing is refused, exactly when it is all whitespace; otherwise the row has the trimmed, non-empty name, the type and the colour |
| SettingsPanel.Panel.StartEdit | src/components/SettingsPanel.tsx:51-55 | the editor opens on the category, with '#3ecf8e' when it has no colour |
| SettingsPanel.Panel.constructor | src/components/SettingsPanel.tsx:17-26 | once the fetch has filled `categories`, the panel holds the loaded categories with the editor closed; both add forms start closed, with empty names and their default colours ('#3ecf8e' for income, '#FF7F6A' for expenses) |
| SettingsPanel.Panel.CancelEdit | src/components/SettingsPanel.tsx:57-61 | the editor goes back to (null, '', '#3ecf8e') and nothing else changes |
| SettingsPanel.Panel.SaveEdit | src/components/SettingsPanel.tsx:63-77 | without an edited id nothing changes; otherwise only categories with that id change, to the trimmed name and chosen colour, and the editor closes |
| SettingsPanel.Panel.RemoveCategory | src/components/SettingsPanel.tsx:79-88 | the list becomes the filter without that id and nothing else changes |
| SettingsPanel.Panel.AddCategory | src/components/SettingsPanel.tsx:90-121 | without a user or with a blank name nothing changes; otherwise the returned row is appended and that type's form resets to its defaults while the other form is kept |
| SettingsPanel.AddedCategoryEndsItsList | src/components/SettingsPanel.tsx:106 | the added category appears at the end of its own type's list and the other list is unchanged |
| NovoLancamento.NormalizeAmount | src/pages/NovoLancamento.tsx:68 | after every '.' is removed, the character at the first ',' becomes '.' and every other position keeps its character; the length drops by the number of '.' |
| NovoLancamento.NormalizeAmountCounts | src/pages/NovoLancamento.tsx:68 | the result has one '.' if the input had a ',' and none otherwise, one ',' fewer than the input when it had any, and every other character as often as the input |
| NovoLancamento.ThousandsSeparatorDropped | src/pages/NovoLancamento.tsx:68 | an amount shaped like "1.234,56" becomes "1234.56", in order |
| Text.RemoveAllAppend | src/pages/NovoLancamento.tsx:68 | removing every '.' distributes over concatenation, so the remaining characters keep their order |
| NovoLancamento.NormalizeKeepsLaterCommas | src/pages/NovoLancamento.tsx:68 | "1,2,3" normalises to "1.2,3": later commas survive, unlike in the reminder editor |
| NovoLancamento.Validate | src/pages/NovoLancamento.tsx:67-70 | a category error iff no category; a value error iff the value is empty, does not parse, or parses to 0 |
| NovoLancamento.SubmitDecision | src/pages/NovoLancamento.tsx:65-104 | blocked iff there is an error; nothing is written without a user; otherwise update iff editing and insert iff not; the row has the category, the type, the date, the description or null when empty, and the non-zero parsed amount |
| NovoLancamento.DisabledMeansBlocked | src/pages/NovoLancamento.tsx:282 | a disabled submit button only hides submits that validation would block anyway |
| NovoLancamento.EditTxEffect | src/pages/NovoLancamento.tsx:44-56 | the edit effect copies type, date, category, description and formatted amount from the edited transaction, and does nothing without one |
| NovoLancamento.TipoEffect | src/pages/NovoLancamento.tsx:58-61 | the type effect clears the category and nothing else |
| NovoLancamento.MountDropsEditedCategory | src/pages/NovoLancamento.tsx:44-61 | as written, an edited transaction opens with no category selected |
| NovoLancamento.Mount | src/pages/NovoLancamento.tsx:44-61 | the intended mount keeps the edited transaction's category and type, and differs from the written one only in the category |
| NovoLancamento.Form.Offered | src/pages/NovoLancamento.tsx:63 | the offered categories are exactly those of the current type |
| NovoLancamento.Form.constructor | src/pages/NovoLancamento.tsx:15-22 | the form holds the loaded categories and no errors, and its fields are the result of the mount effects as written (lines 44-61) |
| NovoLancamento.Form.SetTipo | src/pages/NovoLancamento.tsx:58-61 | a new type clears the category; choosing the current type again changes nothing |
| NovoLancamento.Form.HandleSubmit | src/pages/NovoLancamento.tsx:65-104 | stores the validation errors and returns the write decision, leaving the fields unchanged |
| NovoLancamento.TypeChangeOffersOnlyNewType | src/pages/NovoLancamento.tsx:58-63 | after a type change only the new type's categories are offered and none is selected |
| Setup.DropIndex | src/pages/Setup.tsx:35-43 | deleting a valid index removes only that row, shrinks the list by one and keeps the rest in order; another index changes nothing |
| Setup.DropAddedRow | src/pages/Setup.tsx:15-21 | deleting the row just added gives back the list as it was |
| Setup.DropUpdatedRow | src/pages/Setup.tsx:23-43 | deleting an edited row is the same as deleting it unedited |
| Setup.DeleteKeepsRows | src/pages/Setup.tsx:94 | a delete the UI can issue never empties a list |
| Setup.Form.constructor | src/pages/Setup.tsx:12-13 | both lists start non-empty with the placeholder rows |
| Setup.Form.Add | src/pages/Setup.tsx:15-21 | appends one empty row to the chosen list; the other list is kept |
| Setup.Form.Update | src/pages/Setup.tsx:23-33 | changes only the given row of the chosen list and keeps its length |
| Setup.Form.Delete | src/pages/Setup.tsx:35-43 | the chosen list becomes `DropIndex` of it, still non-empty; the other list is kept |
| AdvertisementsCarousel.GoToSlide | src/components/AdvertisementsCarousel.tsx:131-134 | the index is clamped into 0..3 and kept when already there |
| AdvertisementsCarousel.ReleaseTarget | src/components/AdvertisementsCarousel.tsx:77-85 | a long drag right goes back one, a long drag left goes forward one, otherwise the slide is kept |
| AdvertisementsCarousel.ReleaseMovesAtMostOne | src/components/AdvertisementsCarousel.tsx:77-85 | a release moves at most one slide; a drag of at most 50 pixels never moves; it moves iff it swipes back or forward |
| AdvertisementsCarousel.AutoplayNext | src/components/AdvertisementsCarousel.tsx:139 | the autoplay step advances one slide and wraps the last to 0 |
| AdvertisementsCarousel.AutoplayIsRotation | src/components/AdvertisementsCarousel.tsx:137-140 | after `n` autoplay steps from slide `i` the carousel shows `(i + n) mod 4` |
| AdvertisementsCarousel.AutoplayFullRound | src/components/AdvertisementsCarousel.tsx:137-140 | four steps bring the carousel back to where it started |
| AdvertisementsCarousel.Carousel.MouseDown | src/components/AdvertisementsCarousel.tsx:59-62 | starts a drag at the pointer and keeps the slide |
| AdvertisementsCarousel.Carousel.constructor | src/components/AdvertisementsCarousel.tsx:13-17 | the carousel mounts on the first slide with no drag, start point or offset |
| AdvertisementsCarousel.Carousel.MouseMove | src/components/AdvertisementsCarousel.tsx:64-70 | while dragging, the offset is twice the horizontal travel; otherwise nothing changes |
| AdvertisementsCarousel.Carousel.TouchStart | src/components/AdvertisementsCarousel.tsx:90-96 | starts a drag at the touch point with no offset |
| AdvertisementsCarousel.Carousel.TouchMove | src/components/AdvertisementsCarousel.tsx:98-111 | while dragging, the offset follows the finger only when it moves more sideways than vertically |
| AdvertisementsCarousel.Carousel.Release | src/components/AdvertisementsCarousel.tsx:72-88 | a release while dragging ends the drag, clears the offset and moves to the release target; without a drag nothing changes |
| AdvertisementsCarousel.Carousel.AutoplayTick | src/components/AdvertisementsCarousel.tsx:138-140 | one tick moves to the autoplay successor and keeps the drag state |
| FinancialCarousel.MaxIndex | src/components/FinancialCarousel.tsx:23-24 | `max(0, cards - 2)` |
| FinancialCarousel.GoToSlide | src/components/FinancialCarousel.tsx:66-68 | the index is clamped into 0..maxIndex and kept when already there |
| FinancialCarousel.FormatValue | src/components/FinancialCarousel.tsx:70-72 | the displayed value is the magnitude, never negative |
| FinancialCarousel.DotsCoverPositions | src/components/FinancialCarousel.tsx:116-121 | dot `d` leads to position `d`, every reachable position has a dot, and with dots shown there are cards-1 >= 2 of them |
| FinancialCarousel.OneActiveDot | src/components/FinancialCarousel.tsx:118-125 | exactly one dot is highlighted: the current position's |
| FinancialCarousel.Carousel.GoTo | src/components/FinancialCarousel.tsx:66-68 | a dot click moves to the clamped index and changes nothing else |
| FinancialCarousel.Carousel.constructor | src/components/FinancialCarousel.tsx:17-20 | the carousel mounts on the first card of its `cards` with no drag, start point or scroll offset |
| FinancialCarousel.Carousel.DragStart | src/components/FinancialCarousel.tsx:27-31 | a mouse down or touch start records the start point and scroll offset, keeping the index |
| FinancialCarousel.Carousel.DragEnd | src/components/FinancialCarousel.tsx:43-45 | a mouse up or touch end ends the drag and changes nothing else |
| ProtectedRoute.Redirect | src/components/ProtectedRoute.tsx:20-43 | no navigation while loading; '/login' iff auth is required and there is no user; '/dashboard' iff user, profile, redirectIfCompleted and completed onboarding; '/account-type' iff user, profile, no redirectIfCompleted, incomplete onboarding and path '/dashboard'; at most one target |
| ProtectedRoute.LoginTakesPrecedence | src/components/ProtectedRoute.tsx:23-26 | without a session on a protected page, the login redirect wins whatever the profile and path are |
| ProtectedRoute.NoRedirectWithoutProfile | src/components/ProtectedRoute.tsx:29-41 | without a profile row, neither a signed-in user nor a visitor on a page open to visitors is redirected after loading |
| ProtectedRoute.Render | src/components/ProtectedRoute.tsx:45-49 | the loading view iff loading, the children otherwise |
| ProtectedRoute.RedirectRendersChildren | src/components/ProtectedRoute.tsx:20-49 | whenever a redirect fires, the same pass still renders the children |
| UserProfile.Initials | src/components/UserProfile.tsx:15-23 | both names: their upper-cased first letters; otherwise the e-mail's upper-cased first character; otherwise 'U'; always 1 or 2 characters with no lower-case ASCII letter |
| UserProfile.DisplayName | src/components/UserProfile.tsx:25-33 | "first last" with both names; otherwise the e-mail's text before the first '@'; otherwise 'Usuário' |
| UserProfile.CompletedSteps | src/components/UserProfile.tsx:48-52 | the number of completed steps is at most four |
| UserProfile.GetOnboardingStatus | src/components/UserProfile.tsx:45-55 | 0 without a profile, otherwise 25 times the number of completed flags, so always one of 0, 25, 50, 75, 100 |
| UserProfile.ProgressIsMonotone | src/components/UserProfile.tsx:48-54 | completing more steps never lowers the status, and each new one adds 25 points |
| Perfil.DisplayName | src/pages/Perfil.tsx:13-15 | "first last" with both names; otherwise the e-mail's local part, or 'Usuário' when that is empty; never empty |
| Perfil.Username | src/pages/Perfil.tsx:22-23 | 'U' when the local part is empty, otherwise its first two characters, or the whole local part when it is one character long |
| Perfil.Initials | src/pages/Perfil.tsx:17-24 | the trimmed first letters of whichever names exist, upper-cased, else the username upper-cased; always 1 or 2 characters with no lower-case ASCII letter |
| Perfil.OneNameIsEnough | src/pages/Perfil.tsx:18-21 | a first name alone already gives one-letter initials |
| Perfil.InitialsAgreeWithCard | src/pages/Perfil.tsx:17-24 | with both names starting with a visible character, the page and the profile card show the same initials |
| Perfil.DisplayNamesAgree | src/pages/Perfil.tsx:13-15 | the page and the card differ in the name shown iff there is no full name and the e-mail starts with '@' |
| Perfil.FullNameRow | src/pages/Perfil.tsx:80-83 | "first last" with both names, 'Não informado' otherwise |
| Text.TrimEmptyIffAllSpaces | src/components/SettingsPanel.tsx:92-94 | a string trims to nothing iff it consists of whitespace only |
| Text.TrimIsMiddle | src/components/ReminderEditModal.tsx:47 | trimming keeps a contiguous middle, strips only whitespace, and leaves no whitespace at either end |
| Text.ReplaceFirst | src/pages/NovoLancamento.tsx:68 | `replace(',', '.')` with a string pattern changes only the first ',' |
| Text.LocalPart | src/components/UserProfile.tsx:30 | `split('@')[0]` is the text before the first '@' |

## Left out

- Remote calls are left out: the backend queries, inserts, updates and deletes, and authentication. Each handler is modelled by what it does once its call succeeds. A failed call shows a toast, and the model does not follow that path.
- ReminderEditModal.MarkAsPaid: the handler makes two remote writes, and the model has no state for a failure between them. If the expense insert (src/components/ReminderEditModal.tsx:126-136) succeeds and the reminder update (156-165) fails, the expense stays but `installments_paid` does not advance, so a retry records a second expense.
- Toasts, `confirm`, console output, `navigate` and `window.location.reload` are UI side effects. The route guard returns its target as a value.
- `handleDelete` in the reminder editor is a confirm dialog followed by a remote delete, so it holds no local rule.
- Years 0..99 are not modelled as the Date constructor reads them. `new Date(y, m, d)` maps such a year to 1900 + y (MakeFullYear, section 21.4 of ECMA-262), and `setMonth` does not. `MakeDate` takes the year as given, so a stored due date or a displayed month with a year below 100 is not modelled.
- Time zones are left out. `new Date("YYYY-MM-DD")` parses as UTC, `getMonth` reads local time and `toISOString` converts back to UTC. Dates here are local calendar triples, so a due date shifted by the UTC offset is not modelled.
- Numeric parsing and formatting are left out. `Number`, `parseFloat` and `parseInt` are parameters from text to cents. `toLocaleString('pt-BR')` of an edited amount is a parameter. Floating point is not modelled.
- `toUpperCase` is modelled on ASCII letters only, because Unicode case mapping is out of scope.
- FinancialCarousel's mouse and touch moves are left out: they write only the DOM's `scrollLeft`. The model keeps just the drag state around them.
- The carousels do not re-clamp when the `cards` prop shrinks under the current index. The card count is fixed per carousel.
- The autoplay interval and the loading timer are timers. Only the single autoplay step is modelled.
- The date picker's `startDate` and `endDate` props are taken to be local-midnight dates, like the ones the picker emits (src/components/DateRangePicker.tsx:78). `isDateInRange` (line 63) compares whole Date values, so a `startDate` carrying a time of day would leave its own day out of range, and the model does not capture that.
- The date picker's click-outside `mousedown` listener and its month and weekday label arrays are DOM and display concerns.
- The chart rendering, and the optional date filter that Relatorios applies in its backend query, are left out. The model starts from the rows the query returns.
- Plain input setters (`setDescricao`, `setValor` and the like) are left out. They copy an input value into state.
- ReminderEditModal.MarkAsPaid: states the due date only for days 1..31 and for the no-day case; a stored day outside 0..31 keeps the written behaviour without a proved formula.
- NovoLancamento.Form.constructor: mounts through the effects as written (`MountAsWritten`), so the form keeps the behaviour recorded under Findings; the corrected `Mount` is proved beside it.

## Findings

| source | as written | input that shows it | evidently intended | confidence | as-written member | corrected member |
|---|---|---|---|---|---|---|
| src/components/ReminderEditModal.tsx:145-152 | the next due date is `new Date(y, m + 1, day)`, and the clamp reads the month length from that already-carried date, so it never fires for days 1..31 | due 2025-01-15, `day_of_month` 31: becomes 2025-03-03 | 2025-02-28, the last day of the next month, as the comment at line 147 says | not executed | ReminderEditModal.RolloverSkipsFebruary | ReminderEditModal.ClampedNextDue |
| src/components/DateRangePicker.tsx:94-104 | `setMonth(month ± 1)` keeps the day of the month, so a day missing from the neighbouring month carries past it | showing 2025-01-31, "next": shows March 2025 | February 2025, one month away | not executed | DateRangePicker.NavigateFromThirtyFirstSkipsMonth | DateRangePicker.NeighbourMonth |
| src/pages/NovoLancamento.tsx:44-61 | the `[tipoTransacao]` effect also runs on mount and after the edit effect sets the type, clearing the category the edit effect just loaded | editing any transaction that has a category | the edited transaction's category stays selected | not executed | NovoLancamento.MountDropsEditedCategory | NovoLancamento.Mount |
