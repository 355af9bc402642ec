# Rumah-sewa admin panel: period keys, class names and the payment drawer

This project models, in Dafny, the client-side logic of a household
rent and water billing panel. The billing itself (dues, payments, voids,
water shares, audit records) is computed by database views and stored
procedures that the panel only calls, so it is not modelled. What the
client does decide is modelled and proved:

- **Period keys** (`lib/period.ts`). A billing period is keyed by the ISO
  date of its first day, `YYYY-MM-01`, while a month input holds
  `YYYY-MM`. `MonthToISOFirst` keeps the first two dash-separated pieces
  and appends `-01`, falling back to the current month when either piece
  is missing or empty. `IsoToMonth` takes the first seven characters.
  `CurrentPeriodISO` builds the current month's key from a clock reading
  passed in as a parameter. Proved: both round trips between month values
  and period keys, idempotence of the normalisation, that a trailing day is
  discarded, and the shape of the current key: the month has two digits and
  lies in 01..12.
- **Class-name joiner** `cx` (`components/ui/utils.ts`). The truthy
  arguments are joined with single spaces, in order. Proved: the result is
  empty exactly when no argument is truthy; a falsy argument contributes
  nothing wherever it stands; joining distributes over concatenation of the
  argument list; when some argument is truthy and no class name contains a
  space, splitting the result at spaces gives back the classes.
- **Payment drawer** (`components/DetailDrawer.tsx`). This covers the period
  picker's bounds and offered periods, the default and selected period, the
  due of the selected period, and the guards of the two save actions
  ("Simpan Pembayaran" saves the typed amount, "Bayar Lunas" pays exactly
  the due). It also covers the form state that the drawer updates: a `Drawer`
  class with the active `tab` and the `form` record, whose methods are the
  tab switch, the input handlers, the opening reset and the two save
  actions. Proved: the picker offers the matching keys sorted, each once, or
  else the bounds; in single mode with a non-empty period it offers exactly that period
  (an empty one keeps every key); with
  both bounds non-empty and in order, everything offered lies inside them; when the first offered period is a well-formed `YYYY-MM-01` key, the
  opened form selects it and shows its due. An amount that is NaN
  or not positive is never inserted. An amount more than 0.0001 above a positive
  due is inserted only after confirmation; when the period has no positive due (no status
  row, or already paid), any positive amount is inserted without a prompt. A save clears only the amount and note, so saving again
  without a new amount is refused. "Bayar Lunas" inserts exactly the due,
  with the active tab as its kind.

JavaScript built-ins the core relies on are modelled in `JsString`
(`split`, `join`, `String(n)`, `padStart`, string comparison and the
default `sort`) and `JsNumber` (`Number(text)` on decimal numerals). The
wall clock, the `today` date, the user's answers to `confirm` prompts and
the answer of the remote insert are parameters.

## Model

| member | source | states |
|---|---|---|
| `JsString.Split` | lib/period.ts:17 | `split('-')` yields at least one piece and no piece contains the separator |
| `JsString.JoinSplit` | lib/period.ts:17 | joining the pieces of a split with the separator gives back the original text |
| `JsString.SplitJoin` | components/ui/utils.ts:3 | splitting a join of separator-free pieces gives back exactly those pieces |
| `JsString.JoinAppend` | components/ui/utils.ts:3 | `Join`: joining a concatenation is the two joins with one separator between non-empty sides |
| `JsString.JoinEmpty` | components/ui/utils.ts:3 | `Join`: the join of non-empty pieces is empty exactly when there are no pieces |
| `JsString.LeReflexive` | components/DetailDrawer.tsx:94 | `Le`: every key is `<=` itself |
| `JsString.LeAntisymmetric` | components/DetailDrawer.tsx:94 | `Le`: keys each `<=` the other are equal |
| `JsString.LeTransitive` | components/DetailDrawer.tsx:94 | `Le`: `<=` is transitive |
| `JsString.LeTotal` | components/DetailDrawer.tsx:94 | `Le`: any two keys are comparable |
| `JsString.HasLeast` | components/DetailDrawer.tsx:96 | every non-empty finite set of keys has an element that comes first in string order |
| `JsString.SortedElements` | components/DetailDrawer.tsx:96 | the default `sort()` of distinct keys: same elements, same count, strictly ascending in string order |
| `JsString.NatToString` | lib/period.ts:8 | `String(n)` is a non-empty digit string whose decimal value is `n`, one character exactly when `n < 10`, with no leading zero unless `n` is 0; these fix the text |
| `JsString.IntToStringDigits` | lib/period.ts:9 | `IntToString`: `${yyyy}` starts with a minus exactly for a negative year, followed by non-empty digits whose value is the year's magnitude and which start with no zero unless the year is 0 |
| `JsString.PadStart` | lib/period.ts:8 | `padStart(n, c)` has length `max(n, len)`, ends with the input and is filled with `c` on the left |
| `JsNumber.ParseNumber` | components/DetailDrawer.tsx:163 | `Number(text)`: empty text is 0, a digit string is its value, any non-numeral character gives NaN, a leading minus gives a value `<= 0` |
| `JsNumber.DecimalValue` | components/DetailDrawer.tsx:163 | `Number("w.f")` for digit strings with a digit is `w + f / 10^len(f)` ("12.50" is 12.5, "0.50" is 0.5) |
| `JsNumber.SignedValue` | components/DetailDrawer.tsx:163 | a leading `-` negates the value of an unsigned numeral, a leading `+` keeps it, and NaN stays NaN |
| `JsNumber.SecondDotIsNaN` | components/DetailDrawer.tsx:163 | text with two dots ("1.2.3") is NaN |
| `JsNumber.LateSignIsNaN` | components/DetailDrawer.tsx:163 | a sign after the first character ("1-2", "--3") makes the text NaN |
| `JsNumber.NoDigitIsNaN` | components/DetailDrawer.tsx:163 | non-empty text without a digit (".", "-", "+") is NaN |
| `Period.ConstructedYear` | lib/period.ts:6-7 | the year of `new Date(y, m, 1)` is the given year or one from 1900 to 1999, and it differs exactly for years 0..99; it is negative exactly when the given year is, and at least 100 otherwise |
| `Period.MonthDigits` | lib/period.ts:8 | the padded month is two digits whose value is the zero-based month plus one |
| `Period.CurrentPeriodShape` | lib/period.ts:4-10 | `CurrentPeriodISO`: the current key is `year-mm-01`: `String` of the year, a dash, two digits in 01..12 equal to the month, `-01` |
| `Period.CurrentPeriodIsKey` | lib/period.ts:4-10 | `CurrentPeriodISO`: for a year from 1000 to 9999 the current key is a well-formed `YYYY-MM-01` period key |
| `Period.MonthToISOFirst` | lib/period.ts:15-20 | empty input gives the current period; if the first or second dash piece is missing or empty, the current period; otherwise the result splits into exactly those two pieces and `01` |
| `Period.IsoToMonth` | lib/period.ts:25-28 | the result is the prefix of length min(7, len) of the input (so `""` for `""`) |
| `Period.CurrentPeriodIsNormal` | lib/period.ts:4-20 | normalising the current period key gives it back, for every year, negative ones included |
| `Period.Idempotent` | lib/period.ts:15-20 | `monthToISOFirst` applied to its own result changes nothing |
| `Period.KeepsYearAndMonth` | lib/period.ts:17-19 | for non-empty dash-free year and month, any further dash-separated text (a day) is discarded: result `year-month-01` |
| `Period.MonthValueToKey` | lib/period.ts:15-19 | a `YYYY-MM` value (no other dash) normalises to itself plus `-01`, a well-formed period key |
| `Period.MonthRoundTrip` | lib/period.ts:15-28 | `isoToMonth(monthToISOFirst(m)) == m` for every month value `m` |
| `Period.KeyRoundTrip` | lib/period.ts:15-28 | `monthToISOFirst(isoToMonth(k)) == k` for every well-formed period key `k` |
| `ClassNames.Kept` | components/ui/utils.ts:3 | `filter(Boolean)` keeps only non-empty strings, no more than the arguments, and nothing exactly when no argument is truthy |
| `ClassNames.KeptMembers` | components/ui/utils.ts:3 | every kept string is an argument and every truthy argument is kept |
| `ClassNames.KeptAppend` | components/ui/utils.ts:3 | filtering a concatenation is the concatenation of the filtered parts (order kept) |
| `ClassNames.Cx` | components/ui/utils.ts:2-4 | the result is `""` exactly when no argument is truthy; a single non-empty string comes back unchanged |
| `ClassNames.CxAppend` | components/ui/utils.ts:2-4 | `cx(a ++ b)` is `cx(a)`, a space, then `cx(b)`, the space dropped when either side is empty |
| `ClassNames.FalsyContributesNothing` | components/ui/utils.ts:2-4 | inserting `false`, `null`, `undefined` or `""` anywhere leaves the result unchanged |
| `ClassNames.SplitRecoversClasses` | components/ui/utils.ts:2-4 | with some truthy argument and no spaces inside names, splitting the result at spaces gives the truthy names in argument order |
| `DetailDrawer.OptionalFieldsFollowForm` | components/DetailDrawer.tsx:180-182 | a submitted payment carries paid date, method and note exactly when the form's text is non-empty, and then that text; a "Bayar Lunas" payment carries the paid date under the same rule and never a method or note |
| `DetailDrawer.DefaultMonth` | components/DetailDrawer.tsx:77-80 | the month of the single period in single mode, of the range start in range mode |
| `DetailDrawer.PeriodBounds` | components/DetailDrawer.tsx:82-85 | single mode: from and to are the single period; range mode: the given range |
| `DetailDrawer.AvailablePeriods` | components/DetailDrawer.tsx:89-102 | no house: empty; with a house never empty; if some key is in bounds (all keys when a bound is empty), exactly those keys, strictly ascending; otherwise `[from]`, or `[from, to]` when `to` is non-empty and differs |
| `DetailDrawer.SelectedPeriodIsNormal` | components/DetailDrawer.tsx:151 | `SelectedPeriod`: the selected period key is a fixed point of `monthToISOFirst` |
| `DetailDrawer.CurrentDueOfSelectedPeriod` | components/DetailDrawer.tsx:152-160 | `CurrentDue`: the due of the house's row for the selected period in the active tab's status map, 0 without such a row |
| `DetailDrawer.InBoundsOfEqualBounds` | components/DetailDrawer.tsx:92-95 | `InBounds`: two empty bounds keep every key; equal non-empty bounds keep exactly that key |
| `DetailDrawer.DueValue` | components/DetailDrawer.tsx:151-160 | the due of the house's row for the period, 0 when there is no such row |
| `DetailDrawer.SubmitGuards` | components/DetailDrawer.tsx:162-192 | `SubmitOutcome`: refused exactly when the amount is NaN or `<= 0`; declined exactly when it exceeds a positive due by more than 0.0001 and the user does not confirm; an insert carries the parsed positive amount, the tab as kind and the optional fields; with a positive due and without confirmation it is at most due + 0.0001; saved exactly when attempted and the insert succeeds |
| `DetailDrawer.MarkLunasGuards` | components/DetailDrawer.tsx:194-220 | `MarkLunasOutcome`: nothing due exactly when due `<= 0`; declined exactly when due is positive and not confirmed; an insert pays exactly the due with the tab as kind, paid date if given, no method or note |
| `DetailDrawer.ClearedAfterSave` | components/DetailDrawer.tsx:189 | amount and note become empty, period, paid date and method are kept |
| `DetailDrawer.OpenedForm` | components/DetailDrawer.tsx:104-114 | the opened form holds the month of the first offered period (the start bound if none), today's date, and empty amount, method and note |
| `DetailDrawer.WithField` | components/DetailDrawer.tsx:293-342 | after a change the edited input reads back the typed text and every other input reads as before |
| `DetailDrawer.FieldsDetermineForm` | components/DetailDrawer.tsx:68-74 | a form is fixed by the texts of its five inputs |
| `DetailDrawer.LastEditWins` | components/DetailDrawer.tsx:293-342 | typing twice into one input leaves only the second text |
| `DetailDrawer.EditsCommute` | components/DetailDrawer.tsx:293-342 | edits of two different inputs give the same form in either order |
| `DetailDrawer.Drawer.constructor` | components/DetailDrawer.tsx:65-74 | the drawer starts on the rent tab with an empty form |
| `DetailDrawer.Drawer.SelectTab` | components/DetailDrawer.tsx:275 | a tab click sets the tab and leaves the form |
| `DetailDrawer.Drawer.EditField` | components/DetailDrawer.tsx:293-342 | an input change updates exactly that form field |
| `DetailDrawer.Drawer.ResetForm` | components/DetailDrawer.tsx:104-114 | while open on a house the form becomes the opened form for the active tab's offered periods; otherwise nothing changes |
| `DetailDrawer.Drawer.SubmitPayment` | components/DetailDrawer.tsx:162-192 | the outcome is that of the submit guards for the selected period and its due; the form loses amount and note only after a successful save; the tab is unchanged |
| `DetailDrawer.Drawer.MarkLunas` | components/DetailDrawer.tsx:194-220 | the outcome is that of the mark-as-paid guards; an insert pays exactly the positive due of the selected period with the active tab as kind; the form is untouched |
| `DetailDrawerProperties.SingleModeOffersOnlyItsPeriod` | components/DetailDrawer.tsx:82-101 | in single mode with a non-empty period the picker offers exactly that period, whether or not a status row exists for it |
| `DetailDrawerProperties.OrderedRangeStaysInRange` | components/DetailDrawer.tsx:89-101 | with both bounds non-empty and `from <= to`, every offered period, fallback included, lies between them |
| `DetailDrawerProperties.FirstOfferedIsEarliest` | components/DetailDrawer.tsx:92-96 | when some key is in bounds, the first offered period is the least such key |
| `DetailDrawerProperties.OpenedFormSelectsFirstOffered` | components/DetailDrawer.tsx:104-114 | when the first offered period is a well-formed key, the opened form selects it and shows its due |
| `DetailDrawerProperties.SingleModeDefaultsToItsPeriod` | components/DetailDrawer.tsx:77-80 | in single mode an empty month field selects the single period itself (for a well-formed key) |
| `DetailDrawerProperties.PickedMonthIsSaved` | components/DetailDrawer.tsx:151 | a `YYYY-MM` picked in the form selects `YYYY-MM-01` |
| `DetailDrawerProperties.ResubmitAfterSaveIsRejected` | components/DetailDrawer.tsx:163-166 | after a successful save, saving again without a new amount is refused with no insert |
| `DetailDrawerProperties.ExactDueNeedsNoConfirmation` | components/DetailDrawer.tsx:168-210 | typing exactly a positive due inserts without confirmation, and the payload matches "Bayar Lunas" up to method and note |
| `DetailDrawerProperties.NoDueNeedsNoConfirmation` | components/DetailDrawer.tsx:163-187 | when the period has no positive due, any positive amount is inserted without a prompt, and saved with exactly that amount when the insert succeeds |

## Left out

- Every database call: the payments query (`loadPayments`), the payments insert itself (its answer is a parameter), the `void_payment` procedure behind "Undo" (`voidPayment`), `onRefresh`, and the `loading` and `payments` list state that those calls fill and that closing the drawer empties. The due, paid and void semantics are computed by the database and are not visible to the client.
- The `alert` messages and the `confirm` prompts: each prompt's answer is a boolean parameter, and each alert is the `Outcome` value returned.
- The scheduling of the reset effect by React (it runs on opening, and whenever the offered periods, the start bound or `today` change, including after a tab switch or a refresh of the status maps): `Drawer.ResetForm` is the effect's body, run by the caller.
- The wall clock: `currentPeriodISO` and `today` read a clock passed in (`LocalDate` for the local year and month, a string for today's date).
- Rendering: `toDate`, `toDateTime` and `idr` (locale formatting through `Intl` and `Date`), the table markup, and the header's month labels.
- ParseNumber: reads decimal numerals only (optional sign, digits, optional fraction): exponents, surrounding whitespace, hexadecimal and `Infinity` read as NaN here, while JavaScript reads them as numbers.
- Amounts are exact reals: floating-point rounding of `Number`, of `due + 0.0001` and of the comparisons is not modelled.
- Strings are sequences of code points, where JavaScript counts and compares UTF-16 code units: the string order `Le`, `IsoToMonth`'s seven-character prefix (`slice(0, 7)`) and `PadStart`'s length differ from JavaScript on text with characters beyond U+FFFF, which period keys and month numbers do not contain.
- `Object.keys` order is not modelled: the keys of a house's status rows are a set, which is sorted before use.
- DueValue: a status row's `rent_due`/`water_due` is taken as always present; a row whose due is null (the `?? 0` inside `Number(...)`) is not modelled separately.
- Drawer.SubmitPayment: each handler runs as one step, from the click to the insert's answer. The source awaits the insert in between, and two things are not captured. (a) While the insert is pending the form still holds the amount and no button is disabled, so a second click passes the guards again and inserts the same amount twice; `Drawer.MarkLunas` can also be clicked twice. (b) The clear after a save updates the form as it stands when the insert answers (`prev`), so edits typed in the meantime survive; the model clears the form the click saw.
